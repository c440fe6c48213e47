/**
 App Store receipt validation: one call to the receipt-verification service,
 then a short-circuit check of the response (status, bundle identifier, the
 first in-app item carrying the requested product).
 */
module AppStore {
  import opened Sales

  /** One line of the receipt's in-app purchase list; the quantity is the
      numeric string the service returns. */
  datatype InAppItem = InAppItem(productId: string, quantity: string, transactionId: string)

  datatype Receipt = Receipt(bundleId: string, inApp: seq<InAppItem>)

  /** The service's answer; `environment` tells sandbox receipts from
      production ones and only ever reaches a log line. */
  datatype IAPResponse = IAPResponse(environment: string, status: int, receipt: Receipt)

  /** The receipt-verification call: the response for a receipt, or `None`
      when the call itself fails. */
  type ReceiptVerifier = string -> Option<IAPResponse>

  /** The shared string-to-integer coercion applied to quantities. */
  type QuantityCaster = string -> int

  /** `i` is the position of the first item for `productId`. */
  ghost predicate IsFirstMatch(items: seq<InAppItem>, productId: string, i: int)
  {
    && 0 <= i < |items|
    && items[i].productId == productId
    && forall j :: 0 <= j < i ==> items[j].productId != productId
  }

  /** The scan of the in-app list: the position of the first item for
      `productId`, if any. */
  function FirstMatch(items: seq<InAppItem>, productId: string): (r: Option<nat>)
    ensures r.Some? ==> IsFirstMatch(items, productId, r.value)
    ensures r.None? ==> forall j :: 0 <= j < |items| ==> items[j].productId != productId
  {
    if |items| == 0 then None
    else if items[0].productId == productId then Some(0)
    else
      match FirstMatch(items[1..], productId)
      case None => None
      case Some(k) => Some(k + 1)
  }

  lemma FirstMatchUnique(items: seq<InAppItem>, productId: string, i: int, j: int)
    requires IsFirstMatch(items, productId, i) && IsFirstMatch(items, productId, j)
    ensures i == j
  {
  }

  /** The checks applied to a response, in the order the handler applies them. */
  function Validate(resp: IAPResponse, castToInt: QuantityCaster, req: PurchaseRequest): (r: Handled<PurchaseOutput>)
    ensures r.calls == []
    ensures !r.Ok() ==> r.output == EmptyPurchaseOutput
    ensures r.Ok() ==>
      exists i :: IsFirstMatch(resp.receipt.inApp, req.productId, i)
                  && r.output == Verified(req, resp.receipt.inApp[i].transactionId)
  {
    if resp.status != AppStoreStatusValid then
      Fail(EmptyPurchaseOutput, UnexpectedStatus(resp.status), [])
    else if resp.receipt.bundleId != req.applicationId then
      Fail(EmptyPurchaseOutput, UnexpectedBundleId(resp.receipt.bundleId), [])
    else
      match FirstMatch(resp.receipt.inApp, req.productId)
      case None => Fail(EmptyPurchaseOutput, ProductNotFound(req.productId), [])
      case Some(i) =>
        var item := resp.receipt.inApp[i];
        if castToInt(item.quantity) == 0 then
          Fail(EmptyPurchaseOutput, ZeroQuantity(item.quantity), [])
        else
          Succeed(Verified(req, item.transactionId), [])
  }

  /** The App Store path of the handler. */
  function Verify(verifier: ReceiptVerifier, castToInt: QuantityCaster, req: PurchaseRequest): (r: Handled<PurchaseOutput>)
    ensures r.calls == [VerifyReceipt(req.verificationString)]
    ensures !r.Ok() ==> r.output == EmptyPurchaseOutput
    ensures verifier(req.verificationString).None? ==> r.err == Some(AppStoreVerifyFailed)
    ensures verifier(req.verificationString).Some? ==>
              var v := Validate(verifier(req.verificationString).value, castToInt, req);
              r.err == v.err && r.output == v.output
  {
    var calls := [VerifyReceipt(req.verificationString)];
    match verifier(req.verificationString)
    case None => Fail(EmptyPurchaseOutput, AppStoreVerifyFailed, calls)
    case Some(resp) => Validate(resp, castToInt, req).(calls := calls)
  }

  /** When a response is acceptable, stated without reference to the scan. */
  ghost predicate Accepts(resp: IAPResponse, castToInt: QuantityCaster, req: PurchaseRequest)
  {
    && resp.status == AppStoreStatusValid
    && resp.receipt.bundleId == req.applicationId
    && exists i :: IsFirstMatch(resp.receipt.inApp, req.productId, i)
                   && castToInt(resp.receipt.inApp[i].quantity) != 0
  }

  /** A status other than valid fails, naming the status, whatever the
      bundle identifier and the items. */
  lemma StatusCheckedFirst(resp: IAPResponse, castToInt: QuantityCaster, req: PurchaseRequest)
    requires resp.status != AppStoreStatusValid
    ensures Validate(resp, castToInt, req) == Fail(EmptyPurchaseOutput, UnexpectedStatus(resp.status), [])
  {
  }

  /** With a valid status, a foreign bundle identifier fails before any item
      is looked at. */
  lemma BundleCheckedBeforeScan(resp: IAPResponse, castToInt: QuantityCaster, req: PurchaseRequest)
    requires resp.status == AppStoreStatusValid
    requires resp.receipt.bundleId != req.applicationId
    ensures Validate(resp, castToInt, req) == Fail(EmptyPurchaseOutput, UnexpectedBundleId(resp.receipt.bundleId), [])
  {
  }

  /** The first item for the product alone decides: a zero quantity there
      fails whatever follows it, a nonzero one succeeds with that item's
      transaction identifier. */
  lemma FirstMatchDecides(resp: IAPResponse, castToInt: QuantityCaster, req: PurchaseRequest, i: int)
    requires resp.status == AppStoreStatusValid
    requires resp.receipt.bundleId == req.applicationId
    requires IsFirstMatch(resp.receipt.inApp, req.productId, i)
    ensures castToInt(resp.receipt.inApp[i].quantity) == 0 ==>
      Validate(resp, castToInt, req) == Fail(EmptyPurchaseOutput, ZeroQuantity(resp.receipt.inApp[i].quantity), [])
    ensures castToInt(resp.receipt.inApp[i].quantity) != 0 ==>
      Validate(resp, castToInt, req) == Succeed(Verified(req, resp.receipt.inApp[i].transactionId), [])
  {
    var k := FirstMatch(resp.receipt.inApp, req.productId);
    assert k.Some?;
    FirstMatchUnique(resp.receipt.inApp, req.productId, i, k.value);
  }

  /** A receipt without an item for the product fails naming the product. */
  lemma NoMatchIsNotFound(resp: IAPResponse, castToInt: QuantityCaster, req: PurchaseRequest)
    requires resp.status == AppStoreStatusValid
    requires resp.receipt.bundleId == req.applicationId
    requires forall j :: 0 <= j < |resp.receipt.inApp| ==> resp.receipt.inApp[j].productId != req.productId
    ensures Validate(resp, castToInt, req) == Fail(EmptyPurchaseOutput, ProductNotFound(req.productId), [])
  {
    assert FirstMatch(resp.receipt.inApp, req.productId).None?;
  }

  /** Validation succeeds exactly when the response is acceptable. */
  lemma ValidateSucceedsIff(resp: IAPResponse, castToInt: QuantityCaster, req: PurchaseRequest)
    ensures Validate(resp, castToInt, req).Ok() <==> Accepts(resp, castToInt, req)
  {
    if resp.status == AppStoreStatusValid && resp.receipt.bundleId == req.applicationId {
      var k := FirstMatch(resp.receipt.inApp, req.productId);
      if k.Some? {
        FirstMatchDecides(resp, castToInt, req, k.value);
        if Accepts(resp, castToInt, req) {
          var i :| IsFirstMatch(resp.receipt.inApp, req.productId, i)
                   && castToInt(resp.receipt.inApp[i].quantity) != 0;
          FirstMatchUnique(resp.receipt.inApp, req.productId, i, k.value);
        }
      } else {
        NoMatchIsNotFound(resp, castToInt, req);
      }
    }
  }

  /** Items after the first one for the product never change the outcome. */
  lemma LaterItemsIgnored(resp: IAPResponse, castToInt: QuantityCaster, req: PurchaseRequest, i: int, rest: seq<InAppItem>)
    requires IsFirstMatch(resp.receipt.inApp, req.productId, i)
    ensures
      var items' := resp.receipt.inApp[..i + 1] + rest;
      Validate(resp.(receipt := resp.receipt.(inApp := items')), castToInt, req) == Validate(resp, castToInt, req)
  {
    var items' := resp.receipt.inApp[..i + 1] + rest;
    var resp' := resp.(receipt := resp.receipt.(inApp := items'));
    assert items'[i] == resp.receipt.inApp[i];
    assert IsFirstMatch(items', req.productId, i);
    if resp.status == AppStoreStatusValid && resp.receipt.bundleId == req.applicationId {
      FirstMatchDecides(resp, castToInt, req, i);
      FirstMatchDecides(resp', castToInt, req, i);
    }
  }

  /** Items for other products in front of the list are skipped. */
  lemma OtherProductsSkipped(resp: IAPResponse, castToInt: QuantityCaster, req: PurchaseRequest, skipped: seq<InAppItem>)
    requires forall j :: 0 <= j < |skipped| ==> skipped[j].productId != req.productId
    ensures
      var items' := skipped + resp.receipt.inApp;
      Validate(resp.(receipt := resp.receipt.(inApp := items')), castToInt, req) == Validate(resp, castToInt, req)
  {
    var items := resp.receipt.inApp;
    var items' := skipped + items;
    var resp' := resp.(receipt := resp.receipt.(inApp := items'));
    if resp.status == AppStoreStatusValid && resp.receipt.bundleId == req.applicationId {
      var k := FirstMatch(items, req.productId);
      if k.Some? {
        var i := k.value;
        assert items'[|skipped| + i] == items[i];
        assert IsFirstMatch(items', req.productId, |skipped| + i) by {
          forall j | 0 <= j < |skipped| + i
            ensures items'[j].productId != req.productId
          {
            if j >= |skipped| {
              assert items'[j] == items[j - |skipped|];
            }
          }
        }
        FirstMatchDecides(resp, castToInt, req, i);
        FirstMatchDecides(resp', castToInt, req, |skipped| + i);
      } else {
        assert forall j :: 0 <= j < |items'| ==> items'[j].productId != req.productId by {
          forall j | 0 <= j < |items'|
            ensures items'[j].productId != req.productId
          {
            if j >= |skipped| {
              assert items'[j] == items[j - |skipped|];
            }
          }
        }
        NoMatchIsNotFound(resp, castToInt, req);
        NoMatchIsNotFound(resp', castToInt, req);
      }
    }
  }

  /** Sandbox and production responses are judged alike. */
  lemma EnvironmentIgnored(resp: IAPResponse, castToInt: QuantityCaster, req: PurchaseRequest, environment: string)
    ensures Validate(resp.(environment := environment), castToInt, req) == Validate(resp, castToInt, req)
  {
  }

  /** The App Store path succeeds exactly when the service answers and the
      answer is acceptable, and then it reports the first matching item's
      transaction. */
  lemma VerifySucceedsIff(verifier: ReceiptVerifier, castToInt: QuantityCaster, req: PurchaseRequest)
    ensures Verify(verifier, castToInt, req).Ok() <==>
      verifier(req.verificationString).Some? && Accepts(verifier(req.verificationString).value, castToInt, req)
    ensures Verify(verifier, castToInt, req).Ok() ==>
      var items := verifier(req.verificationString).value.receipt.inApp;
      exists i :: IsFirstMatch(items, req.productId, i)
                  && castToInt(items[i].quantity) != 0
                  && Verify(verifier, castToInt, req).output == Verified(req, items[i].transactionId)
  {
    if verifier(req.verificationString).Some? {
      var resp := verifier(req.verificationString).value;
      ValidateSucceedsIff(resp, castToInt, req);
      if Verify(verifier, castToInt, req).Ok() {
        var i :| IsFirstMatch(resp.receipt.inApp, req.productId, i)
                 && castToInt(resp.receipt.inApp[i].quantity) != 0;
        FirstMatchDecides(resp, castToInt, req, i);
      }
    }
  }
}
