/**
 Worked examples of the handler's decisions on small, concrete inputs.
 */
module Scenarios {
  import opened Sales
  import opened GooglePlay
  import AppStore
  import PlayStore
  import Voided

  const IosRequest := PurchaseRequest("altersnap", "u1", "app1", PlatformIos, "p1", "receipt")

  function ReceiptWith(quantity: string): AppStore.IAPResponse
  {
    AppStore.IAPResponse("Production", 0, AppStore.Receipt("app1", [AppStore.InAppItem("p1", quantity, "t1")]))
  }

  /** A receipt with one item for the product, quantity "2", verifies with
      that item's transaction. */
  lemma AppStoreSingleItemAccepted(castToInt: AppStore.QuantityCaster)
    requires castToInt("2") == 2
    ensures AppStore.Validate(ReceiptWith("2"), castToInt, IosRequest)
            == Succeed(PurchaseOutput("altersnap", "u1", "app1", PlatformIos, "p1", "t1"), [])
  {
    AppStore.FirstMatchDecides(ReceiptWith("2"), castToInt, IosRequest, 0);
  }

  /** The same receipt with quantity "0" fails with a zero-quantity error. */
  lemma AppStoreZeroQuantityRejected(castToInt: AppStore.QuantityCaster)
    requires castToInt("0") == 0
    ensures AppStore.Validate(ReceiptWith("0"), castToInt, IosRequest)
            == Fail(EmptyPurchaseOutput, ZeroQuantity("0"), [])
  {
    AppStore.FirstMatchDecides(ReceiptWith("0"), castToInt, IosRequest, 0);
  }

  /** A Play Store purchase in state 1 fails with that state, after the
      lookup and without consumption. */
  lemma PlayStorePendingPurchaseRejected(g: Services, creds: string)
    requires UsableCredentials(g, OrganizationAltersnap, creds)
    requires g.verifyProduct(creds, ProductRef("app1", "p1", "tok1")).Some?
    requires g.verifyProduct(creds, ProductRef("app1", "p1", "tok1")).value.purchaseState == 1
    ensures var req := PurchaseRequest(OrganizationAltersnap, "u1", "app1", PlatformAndroid, "p1", "tok1");
      PlayStore.Verify(g, req) == Fail(EmptyPurchaseOutput, InvalidPurchaseState(1),
                             ResolutionCalls(g, creds) + [VerifyProduct(ProductRef("app1", "p1", "tok1"))])
  {
    var req := PurchaseRequest(OrganizationAltersnap, "u1", "app1", PlatformAndroid, "p1", "tok1");
    assert ResolveClient(g, req.organizationId).output == creds;
  }

  /** An empty page without pagination maps to the empty output. */
  lemma VoidedEmptyPage(g: Services, clock: Voided.Clock, q: Voided.VoidedQuery, creds: string)
    requires UsableCredentials(g, q.organizationId, creds)
    requires g.voidedPurchases(creds, Voided.ListRequest(Voided.WithDefaults(q, clock))) == Some(VoidedPage(None, []))
    ensures Voided.Query(g, clock, q).Ok()
    ensures Voided.Query(g, clock, q).output == Voided.VoidedOutput("", [])
  {
    assert ResolveClient(g, q.organizationId).output == creds;
  }
}
