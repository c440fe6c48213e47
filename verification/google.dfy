/**
 The Play Store side shared by purchase verification and the voided-purchase
 query: the records the Play Developer API returns, the collaborators the
 handler reaches (environment, secret store, client construction, store
 calls), and credential resolution for an organisation.
 */
module GooglePlay {
  import opened Sales

  /** The part of a product purchase the handler reads, plus two fields it
      does not read (`acknowledgementState`, `purchaseToken`). */
  datatype ProductPurchase = ProductPurchase(
    purchaseState: int,
    consumptionState: int,
    acknowledgementState: int,
    purchaseToken: string)

  /** One voided purchase as the Play Developer API lists it. */
  datatype VoidedPurchase = VoidedPurchase(
    kind: string,
    purchaseToken: string,
    purchaseTimeMillis: int,
    voidedTimeMillis: int,
    orderId: string,
    voidedSource: int,
    voidedReason: int)

  /** A page of the voided-purchase listing; `nextPageToken` is `None` when
      the answer carries no pagination block. */
  datatype VoidedPage = VoidedPage(nextPageToken: Option<string>, voidedPurchases: seq<VoidedPurchase>)

  /** Everything outside the handler that the Play Store paths touch. Each
      store call receives the credentials the client was built from; `None`
      or `false` is a failed call. */
  datatype Services = Services(
    env: string -> string,
    secret: string -> Option<string>,
    newClient: string -> bool,
    verifyProduct: (string, ProductRef) -> Option<ProductPurchase>,
    consumeProduct: (string, ProductRef) -> bool,
    voidedPurchases: (string, VoidedListRequest) -> Option<VoidedPage>)

  /** The credentials that resolution yields for `org`, when it yields any,
      stated without the order of the steps. */
  ghost predicate UsableCredentials(g: Services, org: string, creds: string)
  {
    && org == OrganizationAltersnap
    && g.env(AltersnapCredentialsVar) != ""
    && g.secret(g.env(AltersnapCredentialsVar)) == Some(creds)
    && creds != ""
    && g.newClient(creds)
  }

  /** The calls resolution makes for the known organisation when every step
      succeeds. */
  function ResolutionCalls(g: Services, creds: string): seq<Call>
  {
    [ReadEnv(AltersnapCredentialsVar), FetchSecret(g.env(AltersnapCredentialsVar)), CreateClient(creds)]
  }

  /** Organisation lookup, credential retrieval and client construction; the
      output is the credential material the client was built from. */
  function ResolveClient(g: Services, org: string): (r: Handled<string>)
    ensures org != OrganizationAltersnap ==> r.err == Some(UnknownOrganization(org)) && r.calls == []
    ensures r.Ok() <==> UsableCredentials(g, org, r.output)
    ensures forall c :: UsableCredentials(g, org, c) ==> r.Ok() && r.output == c
    ensures r.Ok() ==> r.calls == ResolutionCalls(g, r.output)
    ensures !r.Ok() ==> r.output == ""
    ensures NoStoreCall(r.calls)
  {
    if org != OrganizationAltersnap then
      Fail("", UnknownOrganization(org), [])
    else
      var arn := g.env(AltersnapCredentialsVar);
      if arn == "" then
        Fail("", MissingCredentialsArn, [ReadEnv(AltersnapCredentialsVar)])
      else
        var fetched := [ReadEnv(AltersnapCredentialsVar), FetchSecret(arn)];
        match g.secret(arn)
        case None => Fail("", SecretStoreFailed, fetched)
        case Some(creds) =>
          if creds == "" then
            Fail("", MissingCredentials(AltersnapCredentialsVar), fetched)
          else if !g.newClient(creds) then
            Fail("", ClientInitFailed, fetched + [CreateClient(creds)])
          else
            Succeed(creds, fetched + [CreateClient(creds)])
  }

  /** Each resolution step that fails reports its own failure, in the order
      the steps run: an unset variable, a failed secret fetch, an empty
      secret, a client that does not build. */
  lemma ResolveClientFailures(g: Services)
    ensures var arn := g.env(AltersnapCredentialsVar);
      var r := ResolveClient(g, OrganizationAltersnap);
      && (arn == "" ==> r.err == Some(MissingCredentialsArn))
      && (arn != "" && g.secret(arn).None? ==> r.err == Some(SecretStoreFailed))
      && (arn != "" && g.secret(arn) == Some("") ==> r.err == Some(MissingCredentials(AltersnapCredentialsVar)))
      && ((arn != "" && g.secret(arn).Some? && g.secret(arn).value != "" && !g.newClient(g.secret(arn).value))
            ==> r.err == Some(ClientInitFailed))
  {
  }
}
