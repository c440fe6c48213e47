# In-app purchase verification handler, modelled in Dafny

This project models the decision logic of a request-triggered function that
verifies in-app purchases. The function decodes a base64 task payload. It
routes on the task name. A verification request is then routed on its
platform: iOS receipts go to the App Store, Android purchase tokens go to the
Play Store. A second task polls the Play Store for voided purchases.

The model is purely functional. Every handler returns a `Handled<T>`: Go's
`(value, error)` pair plus the trace of calls made to collaborators outside
the handler. Those collaborators are the environment, the secret store, client
construction and the two stores. Each one is a function-valued parameter, so
each outcome is fully determined by the request and the collaborators'
answers.

Files:

- `sales.dfy` (`Sales`): request and output records, store sentinels, failures, the call trace, `Handled`.
- `appstore.dfy` (`AppStore`): receipt validation.
- `google.dfy` (`GooglePlay`): Play Developer API records, the collaborator record, credential resolution.
- `playstore.dfy` (`PlayStore`): purchase-token validation and consumption. On success this path makes two store calls: the lookup, then the consumption.
- `voided.dfy` (`Voided`): default time window, the listing request, result mapping.
- `dispatch.dfy` (`Dispatch`): decoding, task routing, platform routing.
- `scenarios.dfy` (`Scenarios`): concrete worked examples.

## Model

| member | source | states |
|---|---|---|
| AppStore.FirstMatch | main.go:87-90 | the scan finds the first in-app item for the product: the item at the returned position matches, no earlier one does, and `None` means no item matches |
| AppStore.Validate | main.go:79-107 | validating a response makes no call; every failure carries the zero output; a success reports the transaction of the first item for the product |
| AppStore.Verify | main.go:61-107 | the App Store path makes exactly one call, the receipt verification with the request's receipt; a failed call is reported as such; once the service answers, the error and output are exactly those of validating its response; every failure carries the zero output |
| AppStore.StatusCheckedFirst | main.go:79-81 | a status other than 0 fails, naming the status, whatever the bundle identifier and the items |
| AppStore.BundleCheckedBeforeScan | main.go:83-85 | with status 0, a bundle identifier other than the application ID fails, naming it, whatever the items |
| AppStore.FirstMatchDecides | main.go:87-104 | the first item for the product decides alone: quantity 0 fails naming the quantity even if a later matching item has a nonzero one; otherwise the output is the request's fields plus that item's transaction ID |
| AppStore.NoMatchIsNotFound | main.go:107 | when no item carries the product, validation fails naming the product |
| AppStore.ValidateSucceedsIff | main.go:79-107 | validation succeeds if and only if status is 0, the bundle matches, and the first matching item has a nonzero quantity (a definition that does not use the scan) |
| AppStore.LaterItemsIgnored | main.go:87-105 | replacing everything after the first matching item leaves the outcome unchanged |
| AppStore.OtherProductsSkipped | main.go:87-90 | putting items for other products in front of the list leaves the outcome unchanged |
| AppStore.EnvironmentIgnored | main.go:75-77 | sandbox and production responses get the same outcome |
| AppStore.VerifySucceedsIff | main.go:65-107 | the App Store path succeeds if and only if the service answers with an acceptable response; the output is then the request plus the first matching item's transaction ID |
| GooglePlay.ResolveClient | main.go:114-139 | the resolution written out twice in the source (main.go:114-139 and main.go:174-199), defined once: an unknown organisation fails, naming it, with no call made; resolution succeeds if and only if the environment variable is set, the secret is fetched and non-empty, and the client builds, and then yields exactly those credentials; it then made exactly those three calls; it never calls a store |
| GooglePlay.ResolveClientFailures | main.go:122-139 | for the known organisation, each failing step reports its own failure: unset variable, failed secret fetch, empty secret, client that does not build |
| PlayStore.Verify | main.go:110-168 | every failure carries the zero output; success copies the request and uses the purchase token as transaction ID; the only store calls are verifying and consuming the request's product and token; a credential failure is passed on with its error and calls; on success the calls are exactly resolution, one lookup, then one consumption |
| PlayStore.UnknownOrganizationRejectedFirst | main.go:114-120 | an organisation other than the known one fails, naming it, with no call to the environment, the secret store or a store |
| PlayStore.VerifySucceedsIff | main.go:122-166 | the Play Store path succeeds if and only if credentials resolve, the purchase is completed (0) and unconsumed (0), and consumption succeeds; the transaction ID is then the submitted token |
| PlayStore.ConsumeOnlyAfterStateChecks | main.go:146-157 | a consumption call happens only when the lookup saw the purchase completed and unconsumed, only for the request's product and token, and the trace is then resolution, one lookup and one consumption, in that order |
| PlayStore.AcknowledgementNotChecked | main.go:141-152 | the purchase's acknowledgement state and echoed token play no part in the outcome |
| PlayStore.PurchaseStateCheckedFirst | main.go:146-148 | a looked-up purchase whose state is not completed fails naming that state, whatever its consumption state, after resolution and the lookup and with no consumption call |
| PlayStore.ConsumptionStateChecked | main.go:150-152 | a completed purchase whose consumption state is not unconsumed fails naming that state, with no consumption call |
| PlayStore.StoreCallFailuresReported | main.go:141-157 | a failed lookup fails as such after the lookup call; a failed consumption of a valid purchase fails as such after the consumption call |
| Voided.WithDefaults | main.go:201-207 | a zero start time becomes the 29-days-back reading and a zero end time becomes the current reading; set times and the other fields are kept |
| Voided.MapItems | main.go:218-230 | the output list has the upstream list's length, and item i carries all seven fields of upstream item i |
| Voided.Query | main.go:170-233 | every failure carries the zero output; an unknown organisation fails, naming it, with no call made; any other credential failure is passed on with its error and calls; a failed listing fails as such after the listing call |
| Voided.WithDefaultsIdempotent | main.go:201-207 | defaulting a defaulted query with the same clock readings changes nothing |
| Voided.QuerySucceedsIff | main.go:209-232 | the query succeeds if and only if credentials resolve and the listing answers; the output then maps the page item by item; the next-page token is empty unless the page has pagination, and is that pagination token otherwise |
| Voided.QueryRequestShape | main.go:201-209 | once credentials resolve, the last call, and the only store call, is the listing: the defaulted window, page size 1000, the caller's token, start index 0 and product type 0 |
| Dispatch.RoutePlatform | main.go:41-48 | a platform other than iOS or Android fails, naming it, with no call made and the zero output; no failure carries a populated output |
| Dispatch.Handle | main.go:25-59 | every failure carries a zero output; a voided-purchase output only ever comes from the voided-purchase task |
| Dispatch.DecodeCheckedFirst | main.go:29-32 | a payload that is not valid base64 fails whatever the task name, with no call made |
| Dispatch.UnknownTaskRejected | main.go:56-58 | a decodable payload with an unrecognised task name fails, naming it, with no call made |
| Dispatch.UnparsableBodyRejected | main.go:34-54 | a body that does not parse as the task's request fails with no call made; the voided-purchase task also returns the verification zero value then |
| Dispatch.VerifyTaskRoutes | main.go:34-48 | a verification task's outcome is the platform routing of its decoded request; an unknown platform yields an error and no populated result |
| Dispatch.IosGoesToAppStoreOnly | main.go:42-43 | iOS requests get the App Store verifier's outcome, and the only call is the receipt verification |
| Dispatch.AndroidGoesToPlayStoreOnly | main.go:44-45 | Android requests get the Play Store verifier's outcome, and the App Store is never called |
| Dispatch.VoidedTaskRoutes | main.go:49-55 | a voided-purchase task's outcome is the query's outcome on its decoded query |
| Scenarios.AppStoreSingleItemAccepted | main.go:87-104 | a receipt whose only item is for the product with quantity "2" verifies with transaction "t1" |
| Scenarios.AppStoreZeroQuantityRejected | main.go:92-94 | the same receipt with quantity "0" fails with a zero-quantity error |
| Scenarios.PlayStorePendingPurchaseRejected | main.go:146-148 | a purchase in state 1 fails naming state 1, after the lookup and with no consumption |
| Scenarios.VoidedEmptyPage | main.go:214-232 | an empty page without pagination succeeds with an empty list and an empty next-page token |

## Left out

- The function runtime and its entry point (main.go:21-23) are invocation plumbing and are not modelled.
- Base64 decoding and JSON unmarshalling are external libraries. They are the `Codecs` functions in `Dispatch`, whose `None` is a decoding error. So the base64/JSON round trip of a request is not modelled.
- The App Store client, the Play Store client (`playstore.New`, `VerifyProduct`, `ConsumeProduct`, `VoidedPurchases`), the environment lookup and the secret store are network or foreign calls. They are fields of `GooglePlay.Services` plus the `AppStore.ReceiptVerifier` parameter. Each answers with a value or a failure.
- The shared string-to-integer coercion of quantities is not part of this model. It is the `AppStore.QuantityCaster` parameter, and only its zero/nonzero answer matters.
- The clock and the calendar arithmetic of "29 days back" are out of scope. The two clock readings the source takes are the `Voided.Clock` parameters `windowStart` and `now`.
- The sandbox log line and the wording of error messages are logging only. A failure carries the request or response value its message names. A failure that wraps a collaborator's error carries nothing, because collaborator errors are modelled as `None` or `false`.
- The voided-purchase path dereferences the listing result without a nil check (main.go:218). The model assumes the listing always returns a page when it succeeds.
- Go distinguishes a nil list (zero output) from an empty list (an empty page mapped). Both are the empty sequence here, so they serialise alike in the model.
- The values of the shared platform, task-name and organisation constants come from a library that is not part of this model. The model uses "ios", "android", "verify_in_app_purchase", "playstore_voided_purchases_check" and "altersnap". The proofs only rely on these names being distinct.
- 64-bit integer widths are not modelled. Apart from the clock reading, which is a parameter, the handler does no arithmetic on times, states or statuses; it only compares and copies them.
- The handler never reads a purchase's acknowledgement state or echoed purchase token, and always consumes a valid purchase. The model proves those two fields are ignored (`PlayStore.AcknowledgementNotChecked`); an acknowledgement-checking policy is not modelled.
