/**
 The handler's entry point: decode the task payload, route on the task
 name, and for a verification route again on the platform.
 */
module Dispatch {
  import opened Sales
  import GooglePlay
  import AppStore
  import PlayStore
  import Voided

  /** The invocation: a task name and a base64-encoded JSON body. */
  datatype Invocation = Invocation(taskName: string, taskData: string)

  /** The decoders the handler relies on; `None` is a decoding error. */
  datatype Codecs = Codecs(
    base64: string -> Option<string>,
    purchaseJson: string -> Option<PurchaseRequest>,
    voidedJson: string -> Option<Voided.VoidedQuery>)

  /** Everything outside the handler's own logic. */
  datatype Env = Env(
    codecs: Codecs,
    castToInt: AppStore.QuantityCaster,
    appStore: AppStore.ReceiptVerifier,
    google: GooglePlay.Services,
    clock: Voided.Clock)

  /** The value the handler returns: the verification output, or the
      voided-purchase output for the voided-purchase task. */
  datatype TaskOutput = PurchaseResult(purchase: PurchaseOutput) | VoidedResult(voided: Voided.VoidedOutput)

  const EmptyTaskOutput := PurchaseResult(EmptyPurchaseOutput)

  function ToPurchaseResult(o: PurchaseOutput): TaskOutput
  {
    PurchaseResult(o)
  }

  function ToVoidedResult(o: Voided.VoidedOutput): TaskOutput
  {
    VoidedResult(o)
  }

  /** Routing of a decoded verification request on its platform. */
  function RoutePlatform(env: Env, req: PurchaseRequest): (r: Handled<PurchaseOutput>)
    ensures req.platform != PlatformIos && req.platform != PlatformAndroid ==>
              r == Fail(EmptyPurchaseOutput, InvalidPlatform(req.platform), [])
    ensures !r.Ok() ==> r.output == EmptyPurchaseOutput
  {
    if req.platform == PlatformIos then
      AppStore.Verify(env.appStore, env.castToInt, req)
    else if req.platform == PlatformAndroid then
      PlayStore.Verify(env.google, req)
    else
      Fail(EmptyPurchaseOutput, InvalidPlatform(req.platform), [])
  }

  /** The handler. Every error comes with a zero value: the voided-purchase
      zero value when the voided-purchase query itself fails, the
      verification zero value otherwise. */
  function Handle(env: Env, inv: Invocation): (r: Handled<TaskOutput>)
    ensures !r.Ok() ==> r.output == EmptyTaskOutput || r.output == VoidedResult(Voided.EmptyVoidedOutput)
    ensures r.output.VoidedResult? ==> inv.taskName == TaskPlayStoreVoidedPurchasesCheck
  {
    match env.codecs.base64(inv.taskData)
    case None => Fail(EmptyTaskOutput, DecodeFailed, [])
    case Some(json) =>
      if inv.taskName == TaskVerifyInAppPurchase then
        match env.codecs.purchaseJson(json)
        case None => Fail(EmptyTaskOutput, UnmarshalFailed, [])
        case Some(req) => RoutePlatform(env, req).MapOutput(ToPurchaseResult)
      else if inv.taskName == TaskPlayStoreVoidedPurchasesCheck then
        match env.codecs.voidedJson(json)
        case None => Fail(EmptyTaskOutput, UnmarshalFailed, [])
        case Some(q) => Voided.Query(env.google, env.clock, q).MapOutput(ToVoidedResult)
      else
        Fail(EmptyTaskOutput, InvalidTaskName(inv.taskName), [])
  }

  /** A payload that is not valid base64 fails whatever the task name, before
      anything else happens. */
  lemma DecodeCheckedFirst(env: Env, inv: Invocation)
    requires env.codecs.base64(inv.taskData).None?
    ensures Handle(env, inv) == Fail(EmptyTaskOutput, DecodeFailed, [])
  {
  }

  /** A decodable payload under an unknown task name fails naming it. */
  lemma UnknownTaskRejected(env: Env, inv: Invocation)
    requires env.codecs.base64(inv.taskData).Some?
    requires inv.taskName != TaskVerifyInAppPurchase && inv.taskName != TaskPlayStoreVoidedPurchasesCheck
    ensures Handle(env, inv) == Fail(EmptyTaskOutput, InvalidTaskName(inv.taskName), [])
  {
  }

  /** A body that does not parse as the task's request shape fails with no
      call made; for the voided-purchase task too, the zero value returned
      is the verification one. */
  lemma UnparsableBodyRejected(env: Env, inv: Invocation)
    requires env.codecs.base64(inv.taskData).Some?
    requires var json := env.codecs.base64(inv.taskData).value;
      || (inv.taskName == TaskVerifyInAppPurchase && env.codecs.purchaseJson(json).None?)
      || (inv.taskName == TaskPlayStoreVoidedPurchasesCheck && env.codecs.voidedJson(json).None?)
    ensures Handle(env, inv) == Fail(EmptyTaskOutput, UnmarshalFailed, [])
  {
  }

  /** The outcome of a verification task is the outcome of platform routing
      on the decoded request. */
  lemma VerifyTaskRoutes(env: Env, inv: Invocation, req: PurchaseRequest)
    requires inv.taskName == TaskVerifyInAppPurchase
    requires env.codecs.base64(inv.taskData).Some?
    requires env.codecs.purchaseJson(env.codecs.base64(inv.taskData).value) == Some(req)
    ensures Handle(env, inv) == RoutePlatform(env, req).MapOutput(ToPurchaseResult)
    ensures req.platform != PlatformIos && req.platform != PlatformAndroid ==>
              Handle(env, inv) == Fail(EmptyTaskOutput, InvalidPlatform(req.platform), [])
  {
  }

  /** iOS requests go to the App Store only: the outcome is the App Store
      verifier's and the one call is the receipt verification. */
  lemma IosGoesToAppStoreOnly(env: Env, req: PurchaseRequest)
    requires req.platform == PlatformIos
    ensures RoutePlatform(env, req) == AppStore.Verify(env.appStore, env.castToInt, req)
    ensures RoutePlatform(env, req).calls == [VerifyReceipt(req.verificationString)]
  {
  }

  /** Android requests go to the Play Store only: the outcome is the Play
      Store verifier's and the App Store is never called. */
  lemma AndroidGoesToPlayStoreOnly(env: Env, req: PurchaseRequest)
    requires req.platform == PlatformAndroid
    ensures RoutePlatform(env, req) == PlayStore.Verify(env.google, req)
    ensures forall i :: 0 <= i < |RoutePlatform(env, req).calls| ==> !RoutePlatform(env, req).calls[i].VerifyReceipt?
  {
    var r := PlayStore.Verify(env.google, req);
    forall i | 0 <= i < |r.calls|
      ensures !r.calls[i].VerifyReceipt?
    {
      if r.calls[i].IsStoreCall() {
        assert r.calls[i] in {VerifyProduct(PlayStore.RefOf(req)), ConsumeProduct(PlayStore.RefOf(req))};
      }
    }
  }

  /** The outcome of a voided-purchase task is the query's outcome on the
      decoded query. */
  lemma VoidedTaskRoutes(env: Env, inv: Invocation, q: Voided.VoidedQuery)
    requires inv.taskName == TaskPlayStoreVoidedPurchasesCheck
    requires env.codecs.base64(inv.taskData).Some?
    requires env.codecs.voidedJson(env.codecs.base64(inv.taskData).value) == Some(q)
    ensures Handle(env, inv) == Voided.Query(env.google, env.clock, q).MapOutput(ToVoidedResult)
  {
  }
}
