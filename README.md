# my_order_fellow — a verified model of the service layer

my_order_fellow is an order-tracking backend for merchants ("companies"). A
company registers and verifies its email with a one-time code (OTP). It then
submits a KYC document, which an administrator approves or rejects. Approval
issues the company a webhook secret. From then on the company pushes order
events (`order.created`, `order.updated`) to a signed webhook, or calls the
order endpoints directly. Each order keeps an append-only tracking history.
Outbound emails are recorded in a notification ledger.

This project models the service layer as Dafny:

- **Company accounts and the shared OTP slot** (`AuthService`, `Store`).
  Registration, login, token refresh, email verification, OTP resend,
  forgotten password, reset-OTP check and password reset. Verification and
  reset share one `otpHash`/`otpExpiresAt` slot on the company row.
- **The KYC lifecycle** (`CompanyService`, `AdminService`, `KycGate`,
  `Store`). Submission, the pending queue, approval with a fresh webhook
  secret, rejection, and the "approved document and verified email" gate.
- **Orders** (`Orders`). Creation is unique on (company, external id).
  A status update detects a no-op and otherwise appends to the history.
  The details read is scoped to the tenant and lists history newest first.
- **Inbound webhooks** (`WebhookController`, `WebhookValidation`,
  `WebhookSignature`). The gate chain (headers, company and secret, KYC,
  HMAC signature over the raw body, payload schema) and then the event
  applied to the order store.
- **Request gates** (`AuthGuards`). Bearer-header parsing, the token-type
  check, the account lookup, the JWT error mapping, the reset-token gate and
  the email-verified gate.
- **Notification ledger** (`Notifications`). One log row per send attempt,
  with a delivery failure recorded rather than raised, and the per-recipient
  listing.
- **Request schemas** (`Schema`, `OrderValidation`, `AuthValidation`,
  `CompanyValidation`). The zod schemas as parsers over a JSON value.

The database is an in-memory store. A table is a sequence of rows in
creation order, so "ordered by `createdAt`" is table order and "newest
first" is its reverse.

- Operations that write are pure transition functions from the tables
  before to the tables and result after (`AuthService.VerifyOtp`,
  `Orders.CreateOrderStep`, ...). These carry the properties.
- Classes hold the state and update it in place:
  - `Store.TenantStore` and `Orders.OrderService` hold the tables. Each
    method does its operation's step imperatively and is proved to end in
    exactly the state the transition function describes, while keeping the
    store invariants (`Valid()`).
  - `Notifications.NotificationService` holds the log table. `SendAndLog`
    appends exactly one log, whether or not delivery succeeded.
  - `AuthGuards.Request` is the Express request. Its methods attach exactly
    what the pure gate decides, and nothing when the gate refuses.

The outside world enters as parameters:

- Fresh row ids, the clock (`now`, in milliseconds) and the 32 random bytes
  of a webhook secret.
- bcrypt comparison as a predicate `matches(candidate, hash)`.
- JWT signing as a function, and JWT verification as an oracle answering
  with the claims or the name of the error thrown.
- HMAC-SHA-256 (RFC 2104 over SHA-256 of FIPS 180-4) as a function into
  32-byte digests. The lowercase hex rendering of a digest is modelled
  concretely.
- zod's email and ISO date-time formats as predicates.

### Store invariants

`Tenants.Consistent` covers company ids, company emails, document ids and
administrator emails: each is unique, and every document names an existing
company. `Tenants.SecretsBackedByApproval` says that only a company with an
APPROVED document holds a webhook secret. `Orders.Consistent` covers the
order side:

- order ids and (company, external id) pairs are unique;
- every history entry names an existing order;
- every order's `currentStatus` is the status of its newest history entry.

Every write is proved to preserve these.

### Behaviour of the code worth noting

- `verifyWebhookSignature` returns false for an absent raw body only. An
  empty raw body is a JavaScript `Buffer`, which is truthy, so it is not
  refused at `src/shared/utils/webhookSignature.ts:8`.
- A 64-character signature that is not ASCII passes the length check. Its
  UTF-8 encoding is then longer than the expected digest's, so
  `timingSafeEqual` throws and the webhook answers 500. The model returns
  `Throws` there.
- `sendAndLog` always stores `providerResponseId` as null, and a `false`
  returned by the email sender still logs SENT.
- `rejectKyc` passes the body's `reason` to Prisma unchecked. With no
  `reason` the stored rejection reason stays as it was, because Prisma
  ignores an undefined field. A null `reason` clears it, and a value that is
  neither a string nor null makes the update throw (a 500) with no write.
- `refreshToken` does not check the token's type. Any verified token that
  names an existing company is refreshed.
- `passwordResetToken` turns every failure into the one 401
  `'Invalid or expired reset token.'`, including the missing header and the
  wrong type.
- A null `itemSummary` is stored as `{}`, like an absent one, because `??`
  treats both the same.
- The webhook drops `initial_status` and forces `isSubscriptionActive` to
  true. A created order therefore starts PENDING.
- `submitKyc` decides on one document only: `findFirst` with no order.
  This is modelled as the company's oldest document. A company whose oldest
  document was REJECTED may submit again even while a newer one is PENDING
  (`CompanyService.ResubmissionDespitePendingDocument`).
- A verified company with a webhook secret but no APPROVED KYC document is
  refused by the webhook with 403 (`src/modules/webhook/webhook.controller.ts:39-42`).
  The integration test at `tests/integration/webhook.test.ts:51-65` sets up
  such a company and expects 200; the model follows the controller.
- `src/modules/order/order.routes.ts:9` and
  `src/modules/notification/notification.routes.ts:7` register the factory
  `authenticate` itself, not `authenticate(...)`. The factory then runs as
  the middleware and never calls `next`, so those requests get no answer.
  Routing is not part of this model: the order and notification operations
  take the caller's company id, or the recipient, as a parameter.

## Model

| member | source | states |
|---|---|---|
| Common.StatusNamed | src/modules/order/order.validation.ts:21 | A wire name denotes a status exactly when it is one of the five enumeration names, and then it is that status's name |
| Schema.ParseString | src/modules/order/order.validation.ts:11 | `z.string().min(n)`: accepts exactly a string of at least n UTF-16 code units, gives it back unchanged, and otherwise reports at least one issue |
| Schema.ParseExactString | src/modules/auth/auth.validation.ts:19 | `z.string().length(n)`: accepts exactly a string of n UTF-16 code units, and only the length is checked |
| Schema.ParseFormat | src/modules/auth/auth.validation.ts:5 | `z.email()` (and `z.iso.datetime()`): accepts exactly a string the format admits, returned unchanged; another string is reported as that format, anything else as the wrong type |
| Schema.ParseStatus | src/modules/order/order.validation.ts:21 | `z.enum(OrderStatus)`: accepts exactly a string naming a status, and yields that status |
| Schema.ParseOptional | src/modules/order/order.validation.ts:13 | `.optional()`: an absent field is valid and stays absent; a present one must pass the inner schema |
| Schema.ParseBoolDefault | src/modules/order/order.validation.ts:17 | `z.boolean().default(d)`: absent gives d, a boolean gives itself, anything else is an issue |
| Text.Utf16Length | src/modules/auth/auth.validation.ts:4 | JavaScript string length counts UTF-16 code units and is never less than the number of characters |
| Text.Utf8Char | src/shared/utils/webhookSignature.ts:17 | `Buffer.from` encodes a character in 1 to 4 bytes, in one byte exactly when it is ASCII |
| Text.Utf8NotShorter | src/shared/utils/webhookSignature.ts:14-17 | A string's UTF-8 encoding is at least as long as its UTF-16 length, and equally long exactly when the string is ASCII |
| Text.AsciiEncoding | src/shared/utils/webhookSignature.ts:17 | An ASCII string encodes to one byte per character, each byte the character's code |
| Text.AsciiEncodingInjective | src/shared/utils/webhookSignature.ts:17 | Two ASCII strings with the same bytes are the same string, so a byte comparison is a string comparison |
| Text.HexEncode | src/modules/admin/admin.service.ts:71 | `toString('hex')`: two lowercase hex digits per byte |
| Text.HexEncodeInjective | src/modules/admin/admin.service.ts:71 | Different bytes give different hex strings |
| Text.LowerHexIsAscii | src/shared/utils/webhookSignature.ts:11 | A lowercase hex digest is ASCII, so its length in code units is its length in characters |
| Text.Split | src/shared/middlewares/auth.ts:18 | `split(' ')` yields at least one segment; the segments joined with the separator give back the header, and no segment contains it |
| AuthValidation.ParsePassword | src/modules/auth/auth.validation.ts:6-9 | A password is accepted iff it has at least 8 code units, an A–Z letter and a 0–9 digit; one without a digit is reported under the regex issue |
| AuthValidation.ParseRegisterCompany | src/modules/auth/auth.validation.ts:3-10 | Valid iff businessName has at least 2 code units, email is an email and the password is strong; the fields are carried through unchanged |
| AuthValidation.ParseLogin | src/modules/auth/auth.validation.ts:12-15 | Valid iff email is an email and password is non-empty |
| AuthValidation.ParseVerifyOtp | src/modules/auth/auth.validation.ts:17-20 | Valid iff email is an email and otp is exactly 6 code units long, digits or not |
| AuthValidation.ParseRefreshToken | src/modules/auth/auth.validation.ts:22-24 | Valid iff refreshToken is a non-empty string |
| AuthValidation.ParseEmailRequest | src/modules/auth/auth.validation.ts:26-32 | The resend and forgot-password bodies are valid iff email is an email |
| AuthValidation.ParseResetPassword | src/modules/auth/auth.validation.ts:34-39 | A reset body is valid iff its password meets the same rule as at registration |
| CompanyValidation.ParseContactPerson | src/modules/company/company.validation.ts:3-8 | Valid iff name has at least 2 and phone at least 10 code units, email if present is an email, role if present has at least 2; absent optional fields stay absent |
| CompanyValidation.ParseSubmitKyc | src/modules/company/company.validation.ts:10-14 | Valid iff registrationNumber has at least 2 and businessAddress at least 5 code units and contactDetails is a valid contact; a missing contactDetails is refused |
| OrderValidation.QuantityIssues | src/modules/order/order.validation.ts:6 | A quantity passes iff it is a safe integer of at least 1 |
| OrderValidation.PriceIssues | src/modules/order/order.validation.ts:7 | A price passes iff it is a number of at least 0 |
| OrderValidation.ItemIssues | src/modules/order/order.validation.ts:4-8 | An item raises no issue iff it is an object with a string name, a valid quantity and a valid price |
| OrderValidation.ItemsIssues | src/modules/order/order.validation.ts:16 | An item array raises no issue iff every item is valid |
| OrderValidation.NormalItem | src/modules/order/order.validation.ts:4-8 | A parsed item holds exactly name, quantity and price, each the input's own value, and is itself a valid item |
| OrderValidation.NormalItemIdempotent | src/modules/order/order.validation.ts:4-8 | Parsing an item already in output form changes nothing |
| OrderValidation.ParseItemSummary | src/modules/order/order.validation.ts:16 | itemSummary is accepted iff it is an array of valid items or a string-keyed record; a record is kept as it is, and an array keeps its length with element i the parsed form of input element i |
| OrderValidation.ParseCreateOrder | src/modules/order/order.validation.ts:10-18 | Valid iff externalOrderId has at least 1 and deliveryAddress at least 5 code units, customerEmail is an email, customerPhone if present is a string, itemSummary is valid and isSubscriptionActive if present is a boolean; each output field is the input's (itemSummary exactly as its own schema parses it); the subscription defaults to true |
| OrderValidation.ParseUpdateStatus | src/modules/order/order.validation.ts:20-23 | Valid iff status names an order status and additionalNote if present is a string |
| WebhookValidation.ParseCreatedData | src/modules/webhook/webhook.validation.ts:4-14 | Valid iff the created data has a string external_order_id (the empty one included), an email customer_email, a string delivery_address and, if present, a string customer_phone and a status initial_status; item_summary is taken as it is and initial_status defaults to PENDING |
| WebhookValidation.ParseUpdatedData | src/modules/webhook/webhook.validation.ts:16-24 | Valid iff the updated data has a string external_order_id, a status new_status and, if present, a string additional_note and a date-time timestamp |
| WebhookValidation.ParseWebhook | src/modules/webhook/webhook.validation.ts:27-30 | The union accepts exactly an `order.created` or `order.updated` event whose data fits that variant, yields that one variant, and refuses any other event_type with a single discriminator issue |
| WebhookSignature.ExpectedSignature | src/shared/utils/webhookSignature.ts:11 | The expected signature is 64 lowercase hex characters |
| WebhookSignature.VerifyWebhookSignature | src/shared/utils/webhookSignature.ts:7-18 | True iff the raw body is present, the secret non-empty and the signature equals the hex HMAC of the body under the secret; it throws iff a non-empty, non-ASCII signature of 64 code units reaches the comparison |
| WebhookSignature.TamperedPayloadRejected | tests/unit/webhookSignature.test.ts:19-48 | A signature made over one body is refused for a body with a different digest |
| WebhookSignature.WrongSecretRejected | tests/unit/webhookSignature.test.ts:19-48 | A signature made under another secret is refused when the digests differ |
| WebhookSignature.UppercaseSignatureRejected | src/shared/utils/webhookSignature.ts:11-17 | The uppercase rendering of a correct digest that holds a letter is refused: comparison is case-sensitive |
| KycGate.Compliant | src/shared/middlewares/checkKyc.ts:20-23 | A company is compliant iff its email is verified and some document of the company is APPROVED |
| KycGate.CheckKycApproved | src/shared/middlewares/checkKyc.ts:6-26 | 401 iff the company id is empty, 404 iff no company has it, and passes iff the company has an APPROVED document and a verified email (403 otherwise) |
| KycGate.OtherDocumentsDoNotBlock | src/shared/middlewares/checkKyc.ts:20 | Adding any further document (PENDING or REJECTED) to a passing company keeps it passing |
| Tenants.ApprovedStaysApproved | src/modules/admin/admin.service.ts:68 | A company that has an approved document keeps one after any write that keeps approvals |
| AuthService.OtpExpiry | src/modules/auth/auth.service.ts:27 | An OTP expires exactly `expiryMinutes` minutes (60000 ms each) after it is issued, so later than issue whenever the setting is positive |
| AuthService.PublicView | src/modules/auth/auth.service.ts:41-46 | The record returned at registration carries the company's id, name, email and verification state unchanged |
| AuthService.PublicViewHidesSecrets | src/modules/auth/auth.service.ts:41-46 | That record does not depend on the password hash, the OTP slot or the webhook secret |
| AuthService.CheckOtp | src/modules/auth/auth.service.ts:141-152 | The slot checks in order: no OTP, then expired (strictly before now, so an expiry equal to now still counts), then not matching; passes iff an unexpired OTP matches |
| AuthService.RegisterCompany | src/modules/auth/auth.service.ts:9-53 | 400 and no write iff the email is taken; otherwise appends one unverified company with the OTP hash expiring at now + minutes·60000 and no secret, returns it without password, OTP slot or secret, and keeps the store invariants |
| AuthService.Login | src/modules/auth/auth.service.ts:55-93 | 400 "Credentials does not match our records" iff no company has the email, 400 "Invalid password" for a wrong password, otherwise the company's token pair; verification is not required |
| AuthService.RefreshToken | src/modules/auth/auth.service.ts:95-126 | A verification error passes through; a verified token succeeds iff its user is an existing company, whatever its type, and yields a fresh pair for that id |
| AuthService.VerifyOtp | src/modules/auth/auth.service.ts:128-168 | 404 for an unknown email, 400 if already verified, then the slot checks; success marks the email verified at now and empties the slot of that company only; failures write nothing |
| AuthService.RefillSlot | src/modules/auth/auth.service.ts:185-194 | Writes a new OTP hash and expiry into one company's slot and changes nothing else |
| AuthService.ResendOtp | src/modules/auth/auth.service.ts:170-202 | 404 for an unknown email, 400 for a verified company, otherwise replaces only the OTP hash and expiry |
| AuthService.ForgotPassword | src/modules/auth/auth.service.ts:204-233 | 404 iff the email is unknown; otherwise replaces only the OTP hash and expiry, verified or not |
| AuthService.VerifyResetOtp | src/modules/auth/auth.service.ts:235-278 | 404 for an unknown email, then the same slot checks as verification; success empties the slot and returns a `password_reset` access token for the company |
| AuthService.ResetPassword | src/modules/auth/auth.service.ts:280-297 | Replaces only the password hash of the token's company; an unknown id makes the store's update throw |
| AuthService.RegisteredOtpVerifies | src/modules/auth/auth.service.ts:25-47 | The code sent at registration verifies the email any time up to its expiry |
| AuthService.VerifyOtpOnlyOnce | src/modules/auth/auth.service.ts:155-167 | After a successful verification every further attempt is refused as already verified |
| AuthService.ResetOtpSingleUse | src/modules/auth/auth.service.ts:258-264 | After a successful reset-code check the same code finds no OTP |
| AuthService.ForgotPasswordSharesSlot | src/modules/auth/auth.service.ts:208-222 | After a password-reset request, email verification checks the code against the reset OTP |
| AdminService.LoginAdmin | src/modules/admin/admin.service.ts:9-40 | The same 401 "Invalid admin credetials" for an unknown email and a wrong password; success signs an access token with type `admin` and the admin's role and returns id, email and role |
| AdminService.OwnerSummary | src/modules/admin/admin.service.ts:46-52 | The company attached to a pending document is its owner's id, business name and email |
| AdminService.GetPendingKyc | src/modules/admin/admin.service.ts:42-58 | Lists only PENDING documents and every one of them, in creation order, each with its owner's summary |
| AdminService.ApproveKyc | src/modules/admin/admin.service.ts:60-92 | 404 for an unknown document, 400 for an approved one, no write on failure; otherwise sets the document APPROVED with reviewer and time and stores a fresh 64-hex-character secret on the owning company only, returns that same secret, and keeps the store invariants |
| AdminService.RejectKyc | src/modules/admin/admin.service.ts:94-116 | 404 for an unknown document, 400 iff it is approved; then a reason that is neither absent, null nor a string throws with no write; otherwise (a re-reject included) sets REJECTED with reviewer and time, keeping the stored reason when none is given, clearing it on null and replacing it with a string, changing only that document |
| AdminService.StoredReason | src/modules/admin/admin.service.ts:107 | The column after the update: kept when the reason is absent, cleared by null, set by a string |
| AdminService.ApprovalIsFinal | src/modules/admin/admin.service.ts:68-101 | Once a document is approved, approving it again and rejecting it are both refused |
| CompanyService.GetProfile | src/modules/company/company.service.ts:6-37 | 404 iff the company does not exist; otherwise its public fields and the summaries of its own documents, each exactly as often as the table holds it (order left free) |
| CompanyService.DocumentsOf | src/modules/company/company.service.ts:19-30 | The company's documents: each of its own documents as often as the table holds it, and nothing else |
| CompanyService.FirstDocumentOf | src/modules/company/company.service.ts:40-42 | Finds a document of the company, the first in table order, and none iff the company has no document |
| CompanyService.SubmitKyc | src/modules/company/company.service.ts:39-69 | 409 if the document found is PENDING or APPROVED; otherwise appends exactly one PENDING document for the company, returns it and changes nothing else |
| CompanyService.ResubmissionDespitePendingDocument | src/modules/company/company.service.ts:41-43 | When the document found is REJECTED, a submission succeeds even if another document of the company is still PENDING |
| Orders.StoredItemSummary | src/modules/order/order.service.ts:31 | A missing or null item summary is stored as `{}`, and any other value as given |
| Orders.CreateOrderStep | src/modules/order/order.service.ts:7-54 | 409 with no write iff the company already has the external id; otherwise one new PENDING order and one history entry "Order created via API", the new order's id is returned, and the order invariants hold |
| Orders.UpdateStatusStep | src/modules/order/order.service.ts:56-96 | The same 404 for a missing order and another company's; no write when the status is already current; otherwise sets the status and appends one entry with the note, without any transition check; no other order's history changes |
| Orders.NewestFirst | src/modules/order/order.service.ts:104 | An order's history read newest first: entry k is its (k+1)-th latest entry in table order, so it holds exactly its entries, the later before the earlier |
| Orders.TrackedNewestFirst | src/modules/order/order.service.ts:36-42 | The newest history entry of a tracked order has its current status |
| Orders.CreateWritesWithin | src/modules/order/order.service.ts:23-45 | Creating writes only within the company: other companies' orders are untouched and the history grows by at most one |
| Orders.UpdateWritesWithin | src/modules/order/order.service.ts:72-87 | A status update writes only within the company: other companies' orders are untouched and the history grows by at most one |
| Orders.GetOrderDetails | src/modules/order/order.service.ts:98-114 | The same tenant-scoped 404; otherwise the order and its history newest first, entry k being its (k+1)-th latest entry, headed by its current status |
| Orders.ReplayedCreateRejected | src/modules/order/order.service.ts:9-20 | Creating the same external id again for the company is refused with 409 and writes nothing |
| Orders.RepeatedUpdateIsNoOp | src/modules/order/order.service.ts:67-69 | Repeating a status update reports "already in status" and writes nothing |
| Orders.CreateThenDeliver | src/modules/order/order.service.ts:7-114 | A created order set to DELIVERED shows DELIVERED with the history [DELIVERED, PENDING "Order created via API"] |
| Orders.DeliveredAfterCreate | src/modules/order/order.service.ts:72-87 | Delivering a PENDING order with a one-entry history keeps its row and appends the DELIVERED entry |
| Orders.CreatedOrderFound | src/modules/order/order.service.ts:23-45 | The created order is found by its id, belongs to the company, is PENDING and has exactly the creation entry |
| Orders.NoHistoryYet | src/modules/order/order.service.ts:36-42 | An id no order has owns no history entry |
| Orders.OrderService.CreateOrder | src/modules/order/order.service.ts:7-54 | Leaves the store as the create step does and keeps the order invariants |
| Orders.OrderService.UpdateStatus | src/modules/order/order.service.ts:56-96 | Leaves the store as the update step does and keeps the order invariants |
| Notifications.GetLogsByEmail | src/modules/notification/notification.service.ts:14-20 | The recipient's 20 newest logs, newest first: entry k is the recipient's (k+1)-th latest log, and all of them when there are no more than 20 |
| Notifications.NewLogListedFirst | src/modules/notification/notification.service.ts:17 | The log just written heads its recipient's listing |
| Notifications.OtherRecipientsUnaffected | src/modules/notification/notification.service.ts:15-18 | A log for one recipient leaves every other recipient's listing unchanged |
| Notifications.NotificationService.SendAndLog | src/modules/notification/notification.service.ts:22-51 | Appends exactly one log and returns it: FAILED iff the send threw, SENT otherwise, no provider response id, the given order id |
| AuthGuards.TypeName | src/shared/middlewares/auth.ts:6 | A route's principal demands the token type `company` or `admin` |
| AuthGuards.BearerToken | src/shared/middlewares/auth.ts:18 | The token is the run of non-space characters after `"Bearer "`, ending at the next space or the end |
| AuthGuards.BearerRoundTrip | src/shared/middlewares/auth.ts:13-18 | `"Bearer " + token` gives the token back when the token holds no space |
| AuthGuards.PrincipalFor | src/shared/middlewares/auth.ts:26-57 | A company token finds exactly an existing company and attaches it without its secrets; an admin token finds exactly an existing administrator |
| AuthGuards.MapTokenError | src/shared/middlewares/auth.ts:60-69 | TokenExpiredError becomes 401 "Session expired…", JsonWebTokenError 401 "Invalid token.", anything else passes through |
| AuthGuards.Authenticate | src/shared/middlewares/auth.ts:9-70 | 401 iff the header is not Bearer; then the verifier's error mapped, 403 iff the token type differs, 401 "Company account not found" or "Admin account not found" iff the account of that kind is missing, else the principal the token names |
| AuthGuards.PasswordResetToken | src/shared/middlewares/auth.ts:73-95 | Passes iff a Bearer token verifies with type `password_reset`, yielding its claims; every failure is the one 401 |
| AuthGuards.EmailVerified | src/shared/middlewares/auth.ts:98-107 | Blocks with 403 iff an unverified company is attached |
| AuthGuards.Request.RunAuthenticate | src/shared/middlewares/auth.ts:40-67 | On success attaches exactly the principal `authenticate` finds; on failure hands on its error and attaches nothing |
| AuthGuards.Request.RunPasswordResetToken | src/shared/middlewares/auth.ts:84-93 | On success attaches the token's claims; on failure hands on the one 401 and attaches nothing |
| AuthGuards.CompanyLoginTokenAuthenticates | src/shared/middlewares/auth.ts:9-45 | A company's login access token opens the company routes for that company and is refused as admin or reset token |
| AuthGuards.ResetTokenOnlyResets | src/shared/middlewares/auth.ts:22-24 | The reset token passes the reset gate and is refused with 403 by both authenticate gates |
| AuthGuards.VerifiedGateAfterAuthenticate | src/shared/middlewares/auth.ts:98-107 | Behind company authentication, the email gate passes iff the stored company is verified |
| Store.TenantStore.RegisterCompany | src/modules/auth/auth.service.ts:9-53 | Leaves the tables as registration does and keeps the invariants |
| Store.TenantStore.VerifyOtp | src/modules/auth/auth.service.ts:128-168 | Leaves the tables as email verification does and keeps the invariants |
| Store.TenantStore.ResendOtp | src/modules/auth/auth.service.ts:170-202 | Leaves the tables as OTP resend does and keeps the invariants |
| Store.TenantStore.ForgotPassword | src/modules/auth/auth.service.ts:204-233 | Leaves the tables as the reset request does and keeps the invariants |
| Store.TenantStore.VerifyResetOtp | src/modules/auth/auth.service.ts:235-278 | Leaves the tables as the reset-code check does and keeps the invariants |
| Store.TenantStore.ResetPassword | src/modules/auth/auth.service.ts:280-297 | Leaves the tables as the password reset does and keeps the invariants |
| Store.TenantStore.SubmitKyc | src/modules/company/company.service.ts:39-69 | Leaves the tables as submission does and keeps the invariants |
| Store.TenantStore.ApproveKyc | src/modules/admin/admin.service.ts:60-92 | Leaves the tables as approval does and keeps the invariants, secrets only for approved companies included |
| Store.TenantStore.RejectKyc | src/modules/admin/admin.service.ts:94-116 | Leaves the tables as rejection does and keeps the invariants |
| WebhookController.SecretOf | src/modules/webhook/webhook.controller.ts:20-36 | A secret is returned only if it is some company's with that id and non-empty; in a consistent store none is returned iff no company has the id or its secret is null or empty |
| WebhookController.HeadersPresent | src/modules/webhook/webhook.controller.ts:13-18 | The request goes on iff both the company-id and the signature header are present and non-empty |
| WebhookController.Admit | src/modules/webhook/webhook.controller.ts:13-52 | The first failing gate decides: 401 missing headers, 401 unknown company or no secret, 403 not compliant, 500 if the comparison throws, 403 bad signature, 400 with the issues for a bad payload; a request passing every gate is admitted with its one typed event |
| WebhookController.CreatedInput | src/modules/webhook/webhook.controller.ts:59-66 | A created event becomes a create input with its own fields, subscription forced on and initial_status dropped |
| WebhookController.WebhookStep | src/modules/webhook/webhook.controller.ts:10-94 | A refused request answers its gate's response and writes nothing; an admitted one answers 200 or 500, a 500 writes nothing, and the order invariants hold |
| WebhookController.HandleIncomingWebhook | src/modules/webhook/webhook.controller.ts:10-94 | Answers and leaves the order store as the webhook step does, keeping the order invariants |
| WebhookController.SameComplianceRule | src/modules/webhook/webhook.controller.ts:39-42 | For a present company id, the webhook's compliance gate passes iff `checkKycApproved` does |
| WebhookController.ReplayedCreateIsServerError | src/modules/webhook/webhook.controller.ts:90-93 | A created event with an external id the company already used answers 500 and writes nothing |
| WebhookController.CreatedOrderStartsPending | src/modules/webhook/webhook.controller.ts:57-66 | A created event for a new external id answers 200 and adds one PENDING order with the subscription on, whatever initial_status said |
| WebhookController.UnknownOrderUpdateIgnored | src/modules/webhook/webhook.controller.ts:68-89 | An updated event for an external id the company lacks answers 200 and writes nothing |
| WebhookController.KnownOrderUpdateApplies | src/modules/webhook/webhook.controller.ts:68-89 | An updated event for one of the company's orders answers 200 and leaves it in the new status, with no write if it already was |
| WebhookController.WebhookStaysInTenant | src/modules/webhook/webhook.controller.ts:57-87 | A webhook without the company header writes nothing; any other writes only orders of the header's company and at most one history entry |

## Left out

- Prisma, its connection and its transactions: each operation is one atomic step over in-memory tables. The check-then-insert race on the unique keys is concurrency and is not modelled.
- `createdAt`/`updatedAt` columns: creation order is table position; the timestamps returned with a profile or attached by `authenticate` are not modelled.
- bcrypt, JWT, HMAC-SHA-256 and `randomBytes`: parameters (see above). OTP generation (`Math.random`, floating point) and the 6-digit code itself are left out; the OTP hash is a parameter.
- Sending email, its templates and the email provider: only the thrown/not-thrown outcome of a send enters `SendAndLog`. The emails sent by registration, resend and forgotten password are not modelled.
- Configuration (`expiryMinutes`, token lifetimes) enters as parameters; environment loading, process start-up, routes, thin controllers, the raw-body parser, the not-found handler, rate limiting and logging are not part of this model.
- The Prisma schema is not part of this model. The five `OrderStatus` values and PENDING as the column default are assumed. The order's company foreign key is not checked (the webhook and the order routes only create orders for an existing company).
- The webhook reads the company tables as they are when the request arrives and writes only orders.
- The error tree of `z.treeifyError` is simplified to a list of issues (path and kind); zod's email and date-time syntax are predicates.
- AdminService.LoginAdmin: the admin login body is not validated by any schema; the model takes it as two strings. A body without `email` (Prisma throws) or with a non-string password (bcrypt throws) is not modelled.
- `success: true` fields of the replies are constant and left out.
- JSON numbers are exact rationals (`real`). A literal that JavaScript reads as `Infinity` (such as `1e400`), and rounding to double precision, are not modelled.
- Lone surrogates in strings are not modelled: a character is a Unicode scalar value.
