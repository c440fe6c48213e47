/**
 The voided-purchase query: resolve credentials, fill in a default time
 window, ask the Play Store for one page of voided purchases, and map that
 page onto the output record.
 */
module Voided {
  import opened Sales
  import opened GooglePlay

  /** A decoded query; a zero time means "not given". */
  datatype VoidedQuery = VoidedQuery(
    organizationId: string,
    applicationId: string,
    startTime: int,
    endTime: int,
    token: string)

  /** One voided purchase in the output. */
  datatype VoidedItem = VoidedItem(
    kind: string,
    purchaseToken: string,
    purchaseTimeMillis: int,
    voidedTimeMillis: int,
    orderId: string,
    voidedSource: int,
    voidedReason: int)

  datatype VoidedOutput = VoidedOutput(nextPageToken: string, voidedPurchases: seq<VoidedItem>)

  /** Go's zero value of the output record, returned alongside every error. */
  const EmptyVoidedOutput := VoidedOutput("", [])

  /** The two clock readings the query takes, in epoch milliseconds:
      `windowStart` is a reading of "now, 29 days earlier" and `now` a later
      reading of the current time. */
  datatype Clock = Clock(windowStart: int, now: int)

  /** The query with unset times replaced by the trailing 29-day window. */
  function WithDefaults(q: VoidedQuery, clock: Clock): (q': VoidedQuery)
    ensures q'.startTime == (if q.startTime == 0 then clock.windowStart else q.startTime)
    ensures q'.endTime == (if q.endTime == 0 then clock.now else q.endTime)
    ensures q'.organizationId == q.organizationId && q'.applicationId == q.applicationId && q'.token == q.token
  {
    var q1 := if q.startTime == 0 then q.(startTime := clock.windowStart) else q;
    if q1.endTime == 0 then q1.(endTime := clock.now) else q1
  }

  /** Output item `out` carries every field of the listed purchase `v`. */
  predicate Carries(out: VoidedItem, v: VoidedPurchase)
  {
    && out.kind == v.kind
    && out.purchaseToken == v.purchaseToken
    && out.purchaseTimeMillis == v.purchaseTimeMillis
    && out.voidedTimeMillis == v.voidedTimeMillis
    && out.orderId == v.orderId
    && out.voidedSource == v.voidedSource
    && out.voidedReason == v.voidedReason
  }

  /** The listed purchases mapped, position by position, onto output items. */
  function MapItems(vs: seq<VoidedPurchase>): (r: seq<VoidedItem>)
    ensures |r| == |vs|
    ensures forall i :: 0 <= i < |vs| ==> Carries(r[i], vs[i])
  {
    if |vs| == 0 then []
    else
      var v := vs[0];
      [VoidedItem(v.kind, v.purchaseToken, v.purchaseTimeMillis, v.voidedTimeMillis,
                  v.orderId, v.voidedSource, v.voidedReason)]
      + MapItems(vs[1..])
  }

  /** The next-page token of the output: empty unless the page has pagination. */
  function NextPageToken(page: VoidedPage): string
  {
    match page.nextPageToken
    case None => ""
    case Some(t) => t
  }

  /** The listing request the query turns into. */
  function ListRequest(q: VoidedQuery): VoidedListRequest
  {
    VoidedListRequest(q.applicationId, q.startTime, q.endTime, VoidedPageSize, q.token, 0, 0)
  }

  /** The voided-purchase path of the handler. */
  function Query(g: Services, clock: Clock, q: VoidedQuery): (r: Handled<VoidedOutput>)
    ensures !r.Ok() ==> r.output == EmptyVoidedOutput
    ensures q.organizationId != OrganizationAltersnap ==>
              r.err == Some(UnknownOrganization(q.organizationId)) && r.calls == []
    ensures !ResolveClient(g, q.organizationId).Ok() ==>
              r.err == ResolveClient(g, q.organizationId).err && r.calls == ResolveClient(g, q.organizationId).calls
    ensures ResolveClient(g, q.organizationId).Ok()
            && g.voidedPurchases(ResolveClient(g, q.organizationId).output, ListRequest(WithDefaults(q, clock))).None? ==>
              r.err == Some(VoidedPurchasesFailed)
              && r.calls == ResolveClient(g, q.organizationId).calls + [ListVoided(ListRequest(WithDefaults(q, clock)))]
  {
    var cl := ResolveClient(g, q.organizationId);
    if !cl.Ok() then
      Fail(EmptyVoidedOutput, cl.err.value, cl.calls)
    else
      var request := ListRequest(WithDefaults(q, clock));
      var calls := cl.calls + [ListVoided(request)];
      match g.voidedPurchases(cl.output, request)
      case None => Fail(EmptyVoidedOutput, VoidedPurchasesFailed, calls)
      case Some(page) =>
        Succeed(VoidedOutput(NextPageToken(page), MapItems(page.voidedPurchases)), calls)
  }

  /** Defaulting an already defaulted query changes nothing. */
  lemma WithDefaultsIdempotent(q: VoidedQuery, clock: Clock)
    ensures WithDefaults(WithDefaults(q, clock), clock) == WithDefaults(q, clock)
  {
  }

  /** The query succeeds exactly when credentials resolve and the listing
      answers; it then asks for one page of 1000 over the defaulted window
      with the caller's page token, and returns that page mapped item by item
      with its next-page token. */
  lemma QuerySucceedsIff(g: Services, clock: Clock, q: VoidedQuery)
    ensures Query(g, clock, q).Ok() <==>
      exists creds :: UsableCredentials(g, q.organizationId, creds)
        && g.voidedPurchases(creds, ListRequest(WithDefaults(q, clock))).Some?
    ensures Query(g, clock, q).Ok() ==>
      var creds := ResolveClient(g, q.organizationId).output;
      var page := g.voidedPurchases(creds, ListRequest(WithDefaults(q, clock))).value;
      var out := Query(g, clock, q).output;
      && |out.voidedPurchases| == |page.voidedPurchases|
      && (forall i :: 0 <= i < |page.voidedPurchases| ==> Carries(out.voidedPurchases[i], page.voidedPurchases[i]))
      && (page.nextPageToken.None? ==> out.nextPageToken == "")
      && (page.nextPageToken.Some? ==> out.nextPageToken == page.nextPageToken.value)
  {
    var cl := ResolveClient(g, q.organizationId);
    if exists creds :: UsableCredentials(g, q.organizationId, creds)
        && g.voidedPurchases(creds, ListRequest(WithDefaults(q, clock))).Some? {
      var creds :| UsableCredentials(g, q.organizationId, creds)
        && g.voidedPurchases(creds, ListRequest(WithDefaults(q, clock))).Some?;
      assert cl.Ok() && cl.output == creds;
    }
  }

  /** Once credentials resolve, the one store call is the listing, with the
      caller's times where given, the clock's otherwise, page size 1000, the
      caller's page token and no start index or product filter. */
  lemma QueryRequestShape(g: Services, clock: Clock, q: VoidedQuery)
    requires ResolveClient(g, q.organizationId).Ok()
    ensures var calls := Query(g, clock, q).calls;
      && |calls| > 0
      && calls[|calls| - 1] == ListVoided(VoidedListRequest(
           q.applicationId,
           if q.startTime == 0 then clock.windowStart else q.startTime,
           if q.endTime == 0 then clock.now else q.endTime,
           1000, q.token, 0, 0))
      && forall i :: 0 <= i < |calls| - 1 ==> !calls[i].IsStoreCall()
  {
  }
}
