/**
 The shared vocabulary of the in-app purchase verification handler: the
 request and output records, the store sentinels, the failures the handler
 reports, the external calls it makes, and the `(value, error)` pair that
 every handler returns.
 */
module Sales {

  datatype Option<+T> = None | Some(value: T)

  /** Sentinels of the store APIs. */
  const AppStoreStatusValid: int := 0
  const PlayStorePurchaseStateCompleted: int := 0
  const PlayStoreConsumptionStateUnconsumed: int := 0

  /** Names shared with the calling services. */
  const PlatformIos: string := "ios"
  const PlatformAndroid: string := "android"
  const TaskVerifyInAppPurchase: string := "verify_in_app_purchase"
  const TaskPlayStoreVoidedPurchasesCheck: string := "playstore_voided_purchases_check"
  const OrganizationAltersnap: string := "altersnap"

  /** Environment variable holding the secret-store reference of the Play Store credentials. */
  const AltersnapCredentialsVar: string := "GOOGLE_ALTERSNAP_CREDENTIALS_JSON_SECRET_ARN"

  /** Page size requested from the voided-purchases listing. */
  const VoidedPageSize: int := 1000

  /** A decoded purchase-verification request; `verificationString` is the
      App Store receipt or the Play Store purchase token. */
  datatype PurchaseRequest = PurchaseRequest(
    organizationId: string,
    userId: string,
    applicationId: string,
    platform: string,
    productId: string,
    verificationString: string)

  /** The normalised verification result. */
  datatype PurchaseOutput = PurchaseOutput(
    organizationId: string,
    userId: string,
    applicationId: string,
    platform: string,
    productId: string,
    transactionId: string)

  /** Go's zero value of the output record, returned alongside every error. */
  const EmptyPurchaseOutput := PurchaseOutput("", "", "", "", "", "")

  /** The output of a successful verification: the request's identifying
      fields with the store's transaction identifier. */
  function Verified(req: PurchaseRequest, transactionId: string): PurchaseOutput
  {
    PurchaseOutput(req.organizationId, req.userId, req.applicationId,
                   req.platform, req.productId, transactionId)
  }

  /** The arguments of a Play Store product verification or consumption. */
  datatype ProductRef = ProductRef(packageName: string, productId: string, token: string)

  /** The arguments of a Play Store voided-purchases listing. */
  datatype VoidedListRequest = VoidedListRequest(
    packageName: string,
    startTime: int,
    endTime: int,
    maxResult: int,
    token: string,
    startIndex: int,
    productType: int)

  /** Everything the handler can report as an error. A failure carries the
      request or response value its message names; a failure that wraps a
      collaborator's error carries nothing, since collaborator errors are
      modelled as `None` or `false`. */
  datatype Failure =
    | DecodeFailed
    | UnmarshalFailed
    | InvalidTaskName(taskName: string)
    | InvalidPlatform(platform: string)
    | AppStoreVerifyFailed
    | UnexpectedStatus(status: int)
    | UnexpectedBundleId(bundleId: string)
    | ZeroQuantity(quantity: string)
    | ProductNotFound(productId: string)
    | UnknownOrganization(organizationId: string)
    | MissingCredentialsArn
    | SecretStoreFailed
    | MissingCredentials(variable: string)
    | ClientInitFailed
    | VerifyProductFailed
    | InvalidPurchaseState(purchaseState: int)
    | InvalidConsumptionState(consumptionState: int)
    | ConsumeFailed
    | VoidedPurchasesFailed

  /** A call into a collaborator outside the handler, in the order made. */
  datatype Call =
    | VerifyReceipt(receipt: string)
    | ReadEnv(name: string)
    | FetchSecret(arn: string)
    | CreateClient(credentials: string)
    | VerifyProduct(purchase: ProductRef)
    | ConsumeProduct(purchase: ProductRef)
    | ListVoided(request: VoidedListRequest)
  {
    /** True of the calls that reach the App Store or the Play Store. */
    predicate IsStoreCall()
    {
      VerifyReceipt? || VerifyProduct? || ConsumeProduct? || ListVoided?
    }
  }

  /** A handler's `(value, error)` pair together with the external calls it made. */
  datatype Handled<T> = Handled(output: T, err: Option<Failure>, calls: seq<Call>)
  {
    predicate Ok()
    {
      err.None?
    }

    /** The same outcome with the value converted, as when a handler's result
        is returned through an interface value. */
    function MapOutput<U>(f: T -> U): Handled<U>
    {
      Handled(f(output), err, calls)
    }
  }

  function Fail<T>(zero: T, failure: Failure, calls: seq<Call>): Handled<T>
  {
    Handled(zero, Some(failure), calls)
  }

  function Succeed<T>(value: T, calls: seq<Call>): Handled<T>
  {
    Handled(value, None, calls)
  }

  /** No call in the trace reaches a store. */
  predicate NoStoreCall(calls: seq<Call>)
  {
    forall i :: 0 <= i < |calls| ==> !calls[i].IsStoreCall()
  }
}
