/**
 Play Store purchase verification: resolve the organisation's credentials,
 look the purchase up, require a completed and unconsumed purchase, consume
 it, and report the purchase token as the transaction identifier.
 */
module PlayStore {
  import opened Sales
  import opened GooglePlay

  /** The product a request refers to, as the store calls receive it. */
  function RefOf(req: PurchaseRequest): ProductRef
  {
    ProductRef(req.applicationId, req.productId, req.verificationString)
  }

  /** The Play Store path of the handler. */
  function Verify(g: Services, req: PurchaseRequest): (r: Handled<PurchaseOutput>)
    ensures !r.Ok() ==> r.output == EmptyPurchaseOutput
    ensures r.Ok() ==> r.output == Verified(req, req.verificationString)
    ensures forall i :: 0 <= i < |r.calls| && r.calls[i].IsStoreCall() ==>
              r.calls[i] in {VerifyProduct(RefOf(req)), ConsumeProduct(RefOf(req))}
    ensures !ResolveClient(g, req.organizationId).Ok() ==>
              r.err == ResolveClient(g, req.organizationId).err && r.calls == ResolveClient(g, req.organizationId).calls
    ensures r.Ok() ==>
              r.calls == ResolutionCalls(g, ResolveClient(g, req.organizationId).output)
                         + [VerifyProduct(RefOf(req)), ConsumeProduct(RefOf(req))]
  {
    var cl := ResolveClient(g, req.organizationId);
    if !cl.Ok() then
      Fail(EmptyPurchaseOutput, cl.err.value, cl.calls)
    else
      var creds := cl.output;
      var looked := cl.calls + [VerifyProduct(RefOf(req))];
      match g.verifyProduct(creds, RefOf(req))
      case None => Fail(EmptyPurchaseOutput, VerifyProductFailed, looked)
      case Some(purchase) =>
        if purchase.purchaseState != PlayStorePurchaseStateCompleted then
          Fail(EmptyPurchaseOutput, InvalidPurchaseState(purchase.purchaseState), looked)
        else if purchase.consumptionState != PlayStoreConsumptionStateUnconsumed then
          Fail(EmptyPurchaseOutput, InvalidConsumptionState(purchase.consumptionState), looked)
        else
          var consumed := looked + [ConsumeProduct(RefOf(req))];
          if !g.consumeProduct(creds, RefOf(req)) then
            Fail(EmptyPurchaseOutput, ConsumeFailed, consumed)
          else
            Succeed(Verified(req, req.verificationString), consumed)
  }

  /** When the Play Store path succeeds, stated without the order of the steps. */
  ghost predicate Accepts(g: Services, req: PurchaseRequest)
  {
    exists creds :: UsableCredentials(g, req.organizationId, creds)
      && g.verifyProduct(creds, RefOf(req)).Some?
      && g.verifyProduct(creds, RefOf(req)).value.purchaseState == PlayStorePurchaseStateCompleted
      && g.verifyProduct(creds, RefOf(req)).value.consumptionState == PlayStoreConsumptionStateUnconsumed
      && g.consumeProduct(creds, RefOf(req))
  }

  /** An unknown organisation is rejected before the environment, the secret
      store or any store is touched. */
  lemma UnknownOrganizationRejectedFirst(g: Services, req: PurchaseRequest)
    requires req.organizationId != OrganizationAltersnap
    ensures Verify(g, req) == Fail(EmptyPurchaseOutput, UnknownOrganization(req.organizationId), [])
  {
  }

  /** The Play Store path succeeds exactly when credentials resolve, the
      purchase is completed and unconsumed, and consumption succeeds; the
      transaction is then the submitted token. */
  lemma VerifySucceedsIff(g: Services, req: PurchaseRequest)
    ensures Verify(g, req).Ok() <==> Accepts(g, req)
    ensures Verify(g, req).Ok() ==> Verify(g, req).output.transactionId == req.verificationString
  {
    var cl := ResolveClient(g, req.organizationId);
    if Accepts(g, req) {
      var creds :| UsableCredentials(g, req.organizationId, creds)
        && g.verifyProduct(creds, RefOf(req)).Some?
        && g.verifyProduct(creds, RefOf(req)).value.purchaseState == PlayStorePurchaseStateCompleted
        && g.verifyProduct(creds, RefOf(req)).value.consumptionState == PlayStoreConsumptionStateUnconsumed
        && g.consumeProduct(creds, RefOf(req));
      assert cl.Ok() && cl.output == creds;
    }
  }

  /** The purchase is consumed only once it has been seen completed and
      unconsumed, and only with the request's product and token: the trace is
      then resolution, one lookup, and one consumption as its last call. */
  lemma ConsumeOnlyAfterStateChecks(g: Services, req: PurchaseRequest, c: Call)
    requires c in Verify(g, req).calls && c.ConsumeProduct?
    ensures c.purchase == RefOf(req)
    ensures var creds := ResolveClient(g, req.organizationId).output;
      && g.verifyProduct(creds, RefOf(req)).Some?
      && g.verifyProduct(creds, RefOf(req)).value.purchaseState == PlayStorePurchaseStateCompleted
      && g.verifyProduct(creds, RefOf(req)).value.consumptionState == PlayStoreConsumptionStateUnconsumed
    ensures Verify(g, req).calls
            == ResolutionCalls(g, ResolveClient(g, req.organizationId).output)
               + [VerifyProduct(RefOf(req)), ConsumeProduct(RefOf(req))]
  {
    var cl := ResolveClient(g, req.organizationId);
    assert !(c in cl.calls);
  }

  /** The purchase's acknowledgement state and echoed token do not take part
      in the decision. */
  lemma AcknowledgementNotChecked(g: Services, req: PurchaseRequest, acknowledgementState: int, purchaseToken: string)
    ensures
      var g' := g.(verifyProduct := (creds, ref) =>
        match g.verifyProduct(creds, ref)
        case None => None
        case Some(p) => Some(p.(acknowledgementState := acknowledgementState, purchaseToken := purchaseToken)));
      Verify(g', req) == Verify(g, req)
  {
  }

  /** A purchase that is not completed fails naming its state, before the
      consumption state is looked at and without consumption. */
  lemma PurchaseStateCheckedFirst(g: Services, req: PurchaseRequest, creds: string)
    requires UsableCredentials(g, req.organizationId, creds)
    requires g.verifyProduct(creds, RefOf(req)).Some?
    requires g.verifyProduct(creds, RefOf(req)).value.purchaseState != PlayStorePurchaseStateCompleted
    ensures Verify(g, req) == Fail(EmptyPurchaseOutput,
              InvalidPurchaseState(g.verifyProduct(creds, RefOf(req)).value.purchaseState),
              ResolutionCalls(g, creds) + [VerifyProduct(RefOf(req))])
  {
    assert ResolveClient(g, req.organizationId).output == creds;
  }

  /** A completed purchase that is already consumed fails naming its
      consumption state, without consumption. */
  lemma ConsumptionStateChecked(g: Services, req: PurchaseRequest, creds: string)
    requires UsableCredentials(g, req.organizationId, creds)
    requires g.verifyProduct(creds, RefOf(req)).Some?
    requires g.verifyProduct(creds, RefOf(req)).value.purchaseState == PlayStorePurchaseStateCompleted
    requires g.verifyProduct(creds, RefOf(req)).value.consumptionState != PlayStoreConsumptionStateUnconsumed
    ensures Verify(g, req) == Fail(EmptyPurchaseOutput,
              InvalidConsumptionState(g.verifyProduct(creds, RefOf(req)).value.consumptionState),
              ResolutionCalls(g, creds) + [VerifyProduct(RefOf(req))])
  {
    assert ResolveClient(g, req.organizationId).output == creds;
  }

  /** A failed lookup, or a failed consumption of a valid purchase, is
      reported as such. */
  lemma StoreCallFailuresReported(g: Services, req: PurchaseRequest, creds: string)
    requires UsableCredentials(g, req.organizationId, creds)
    ensures g.verifyProduct(creds, RefOf(req)).None? ==>
      Verify(g, req) == Fail(EmptyPurchaseOutput, VerifyProductFailed,
                             ResolutionCalls(g, creds) + [VerifyProduct(RefOf(req))])
    ensures (&& g.verifyProduct(creds, RefOf(req)).Some?
             && g.verifyProduct(creds, RefOf(req)).value.purchaseState == PlayStorePurchaseStateCompleted
             && g.verifyProduct(creds, RefOf(req)).value.consumptionState == PlayStoreConsumptionStateUnconsumed
             && !g.consumeProduct(creds, RefOf(req))) ==>
      Verify(g, req) == Fail(EmptyPurchaseOutput, ConsumeFailed,
                             ResolutionCalls(g, creds) + [VerifyProduct(RefOf(req)), ConsumeProduct(RefOf(req))])
  {
    assert ResolveClient(g, req.organizationId).output == creds;
  }
}
