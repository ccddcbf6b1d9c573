# Order workflow across four Go services, modelled in Dafny

The system is four small HTTP services: a user directory, a payment gateway in
front of Stripe, an email notifier, and an order service. The order service
coordinates the other three. Once the network, SQLite, Stripe and SMTP are
replaced by their outcomes, each service is a decision procedure. This project
models those procedures and proves what they promise, alone and in composition.

- **Order orchestration** (`OrderService`, `order_service.dfy`). `OrderHandler` is
  a method over the `orders` table. It runs the fixed steps: validate the
  request, look up the user, insert a `pending` row, charge, record the payment
  status, launch a notification, reply. Every step has its own exit. The outcome
  of each outbound call is an input. The handler returns the reply and the
  ordered trace of its effects (`Effect`): lookup, insert, charge, status update,
  notification. "No payment call" therefore means "no `Charge` in the trace".
  `GetUser`, `ProcessPayment` and `SendNotification` are the client-side
  mappings from a call's outcome to a value or an error.
- **User directory** (`UserService`, `user_service.dfy`). `UserHandler` inserts
  into an AUTOINCREMENT table. `GetUserHandler` parses the id after
  `/api/users/` with `strconv.Atoi` and looks it up.
- **Payment gateway** (`PaymentService`, `payment_service.dfy`). It validates the
  request and maps Stripe's outcome to a response record.
- **Notifier** (`NotificationService`, `notification_service.dfy`). It decides
  whether to send the confirmation email and builds the raw SMTP message.
- Supporting modules:
  - `Sqlite`: a generic in-memory AUTOINCREMENT table class (rows by key plus
    the `sqlite_sequence` counter), used by both services that own a table.
  - `Decimal`: Go's `%d` and `strconv.Atoi` on a 64-bit platform.
  - `FloatFormat`: `float64(n)` rounding and `%.2f`.
  - `Http`: requests, replies and call outcomes.
  - `Messages`: the JSON records that cross service boundaries.
  - `CrossService`: lemmas where one service's reply is another service's
    input, and the end-to-end scenarios.

The central cross-service fact is this. The gateway encodes its record with the
default status 200 even when Stripe fails. So a declined charge reaches the
order service as a 200 with status `failed`, and `processPayment` returns no
error for it. The order service then stores `failed` and launches a
notification with that status. The notifier sends no email for it
(`CrossService.DeclinedChargeIsNotAPaymentError`,
`CrossService.DeclinedChargeFlow`). The order service's payment-error branch is
reached only on a transport error, an undecodable body, or a gateway 400/405
(`CrossService.PaymentErrorOnlyOnRejection`).

Some behaviours of the code are easy to misread; the model follows the code:
- A declined charge does not produce `paymentError`. The reply carries the
  gateway's `failed` record under `payment` (`CrossService.DeclinedBookOrderScenario`).
- The reply's `order.payment_status` is never set by the handler. It echoes
  whatever the request carried, usually nothing (`CrossService.BookOrderScenario`).
- The stored status is whatever `status` a 200 answer carries. Only the real
  gateway limits it to `success` or `failed`.
- The notifier answers 200 even when the email fails. So the order service
  never sees a notification failure for a delivered request
  (`CrossService.NotifierHidesEmailFailure`).
- When `LastInsertId` fails after a successful INSERT, a `pending` row stays in
  the table and the reply is 500.

Inputs that stand for the outside world:
- Each outbound HTTP call is an `Exchange`: a transport error (a timeout
  included), or a status code with a body that decodes or does not.
- Each request body is a `Decoded` value.
- Stripe's answer is a `StripeOutcome` and SMTP's is a `SendOutcome`.
- SQLite failures are a `Fault` for an insert, a flag for an update, and an
  optional error for a query.

## Model

| member | source | states |
|---|---|---|
| `OrderService.OrderHandler` | order-service/main.go:83-153 | Non-POST gives 405, an undecodable body 400, and `user_id <= 0` or `amount <= 0` 400; each has no effect and no write. A failed user lookup gives 400 with the lookup error, exactly one lookup effect, and an unchanged table. A refused insert gives 500, no charge, no update, and an unchanged table. A run insert adds one `pending` row with the request's user id, amount and description, under an id above every earlier id. A failed `LastInsertId` gives 500 and no charge. Otherwise the order carries the new id and its request `payment_status`, and the gateway is charged with (id, amount, description). On a payment error: the row becomes `failed`, the reply is order + `paymentError`, no notification. Else: the row takes the gateway's status, the reply is order + payment, and one notification (id, status, amount, user email) is launched last. A failed update leaves the row `pending`. |
| `OrderService.GetUser` | order-service/main.go:155-178 | A user exactly when the answer is 200 and decodes, and then it is the decoded user. A transport error, or a non-200 as `user not found or error: <code>`, or a decode error otherwise. |
| `OrderService.ProcessPayment` | order-service/main.go:180-210 | An error exactly on a transport error, an undecodable body (decoding precedes the status test) or a non-200 status; a non-200 record gives `payment failed: ` + its error message; a 200 record passes through whatever its status, `failed` included. |
| `OrderService.SendNotification` | order-service/main.go:212-239 | No error exactly when the call returns 200; a non-200 gives `notification failed with status: <code>`; the body is not read. |
| `OrderService.UpdatePaymentStatus` | order-service/main.go:241-246 | Only the `payment_status` of the row with that id changes; every other row and field, and the sequence, stay; a failing statement changes nothing (the error is only logged). |
| `Sqlite.Table.constructor` | order-service/main.go:70-80 | A new table is empty with its sequence at 0. |
| `Sqlite.Table.Insert` | order-service/main.go:110-126 | When the statement runs, the new key is one past the sequence, fresh and above every existing key, and exactly that row is added. A failing `LastInsertId` is reported after the row is stored. An Exec failure, or a sequence at SQLite's largest rowid, changes nothing. |
| `Sqlite.Table.Update` | order-service/main.go:242 | `UPDATE … WHERE id = ?` rewrites that row alone, if present; keys and sequence are unchanged. |
| `UserService.UserHandler` | user-service/main.go:63-96 | Non-POST gives 405 and an undecodable body 400, neither with a write. A refused insert gives 500 with no write. Otherwise one row with the body's name and email is added under the next id, other rows unchanged, and the reply is that user under the new id (the body's id is overwritten), or 500 if `LastInsertId` fails. A GET of the new user's path then returns exactly that user. |
| `UserService.GetUserHandler` | user-service/main.go:98-128 | Non-GET gives 405. A suffix that `Atoi` rejects gives 400. A present id gives that row's id, name and email. An absent id gives 404, exactly when the query does not fail. A failing query gives 500. |
| `UserService.LookupAfterInsert` | user-service/main.go:84-91 | The lookup path of a stored id parses back to that id, so the stored name and email are returned. |
| `Decimal.Atoi` | user-service/main.go:107 | A successful parse is an optional sign followed by at least one digit, and its value is the signed value of those digits, within the 64-bit range. |
| `Decimal.AtoiDigits` | user-service/main.go:107 | A non-empty digit string (leading zeros allowed) parses bare or after `+` to its value exactly when that value is at most 2^63 - 1, and after `-` to its negation exactly when the value is at most 2^63; otherwise it is rejected. |
| `Decimal.FormatInt` | order-service/main.go:157 | `%d` output is non-empty, all digits for non-negative numbers, and led by `-` for negative ones. |
| `Decimal.AtoiFormatInt` | order-service/main.go:157 | `Atoi` of the `%d` rendering gives back every 64-bit integer. |
| `PaymentService.ProcessPayment` | payment-service/main.go:53-68 | The record echoes the order id and amount, and its status is `success` or `failed`. On a Stripe error: `failed`, that error as `ErrorMessage` and as the returned error, and no transaction id. On success: `success`, the intent id as transaction id, no message, and no error. |
| `PaymentService.PaymentHandler` | payment-service/main.go:87-116 | Non-POST gives 405. An undecodable body gives 400. `amount <= 0` gives 400. Otherwise the reply is the processor's record with status 200, whether or not the processor returned an error. |
| `PaymentService.RejectionIgnoresProcessor` | payment-service/main.go:100-106 | A rejected request's reply does not depend on the processor, so the processor is not consulted, and the status is not 200. |
| `NotificationService.SendEmail` | notification-service/main.go:24-40 | `smtp.SendMail` goes to `mailhog:1025` from `from@example.com` to exactly the recipient. The message is `To: ` to CRLF `Subject: ` subject CRLF CRLF body CRLF. |
| `NotificationService.NotificationHandler` | notification-service/main.go:43-69 | Non-POST gives 405 and an undecodable body 400, neither with an email. Otherwise the reply names the request's order id. An email is attempted exactly when `paymentStatus` is exactly `success`, and it is the confirmation for that order and amount to `userEmail`. The status is `email_failed` exactly when an attempted email failed, and `sent` otherwise. |
| `NotificationService.ParseMessageRoundTrip` | notification-service/main.go:34-37 | When recipient and subject contain no CR, the message reads back as exactly its recipient, subject and body. |
| `NotificationService.SubjectNamesOrder` | notification-service/main.go:60 | The subject is `Payment Confirmation for Order #` followed by the order number, which parses back to the order id. |
| `NotificationService.ConfirmationBodyShowsAmount` | notification-service/main.go:61 | For an amount up to 2^53 in magnitude, the confirmation body's dollar figure, right after the greeting, is the amount's own digits followed by `.00`. |
| `NotificationService.ConfirmationEmailReadsBack` | notification-service/main.go:58-62 | For a `success` request whose address has no CR, the email is sent, and its message carries that address, the order's subject and the confirmation body. |
| `FloatFormat.NearestMultiple` | notification-service/main.go:59 | The rounding behind `float64(n)`: the nearest multiple of the spacing, with ties going to an even significand. |
| `FloatFormat.ToFloat64` | notification-service/main.go:59 | `float64(n)` keeps the sign of n and lies within half a float64 spacing of n. |
| `FloatFormat.ToFloat64Exact` | notification-service/main.go:59 | Amounts up to 2^53 in magnitude convert exactly. |
| `FloatFormat.FormatFixed2Exact` | notification-service/main.go:59-61 | `%.2f` of `float64(n)`, for n up to 2^53 in magnitude, is the `%d` rendering of n followed by `.00`. |
| `CrossService.DeclinedChargeIsNotAPaymentError` | payment-service/main.go:106-111 | A Stripe decline reaches the order service as 200 with a `failed` record echoing order id and amount with the decline message. `processPayment` returns it as success. The notifier answers `sent` for that status and sends no email. |
| `CrossService.PaymentErrorOnlyOnRejection` | order-service/main.go:128-137 | Against the real gateway, `processPayment` errs exactly when the gateway rejected the request (400 or 405). Every passed-through record is `success` or `failed`, and `failed` exactly on a Stripe error. |
| `CrossService.UserUrlNamesLookupPath` | order-service/main.go:157 | The URL `getUser` requests is the user service's lookup path for that id. |
| `CrossService.UserLookupAgainstDirectory` | order-service/main.go:159-177 | Served by the directory, `getUser` yields the stored user, or `user not found or error: 404` when the id is absent. |
| `CrossService.NotifierHidesEmailFailure` | notification-service/main.go:62-68 | A decodable POST is always answered with 200, so `sendNotification` never reports an error for it, even when the email failed. |
| `CrossService.DeclinedChargeFlow` | order-service/main.go:139-146 | A gateway decline stores `failed` in a fresh row. The reply carries the gateway's `failed` record, not an error. The last effect is a notification with status `failed`, for which the notifier sends no email. |
| `CrossService.BookOrderScenario` | order-service/main.go:139-151 | User 1 orders 5000 for "book" and intent `tx_1` succeeds. The reply carries order 1 (with the request's empty payment status) and the `success` record with `tx_1`. The row is stored `success`, and one email goes to the user. |
| `CrossService.DeclinedBookOrderScenario` | order-service/main.go:128-146 | The same order declined with `card_declined` gets a 200 reply whose payment record is `failed` with that message, not a `paymentError`. The row is `failed` and no email is sent. |
| `CrossService.UnknownUserScenario` | order-service/main.go:103-108 | An order for an absent user gets 400 `User validation failed: user not found or error: 404` and leaves the order table empty. |

## Left out

- Process wiring is not modelled: `main`, `DB_PATH`, `MkdirAll`, `sql.Open`, `Ping`, `ListenAndServe` and ServeMux routing. `GetUserHandler` requires its path to start with `/api/users/`, which is what the mux guarantees.
- Real HTTP, JSON coding and the 5-second client timeouts are replaced by the `Decoded` and `Exchange` inputs. Decoded integers are mathematical: a number Go's decoder would reject as out of range is not excluded. How a client decodes an `http.Error` text is an input of `CrossService.Deliver`.
- `http.Error`'s trailing newline and the response headers are not modelled. Neither is a failing write of an encoded response (user-service/main.go:92-94, payment-service/main.go:111-115, notification-service/main.go:68), which is I/O.
- The `json.Marshal` failure branches in `processPayment` and `sendNotification` (order-service/main.go:190-192, 224-226) are left out. Those structs always marshal.
- The goroutine at order-service/main.go:141-146 is not modelled as concurrency. The notification is the last effect in the trace, and `SendNotification` maps its outcome, which the goroutine only logs.
- Concurrent requests on one table are not modelled. Handlers run one at a time.
- The Stripe SDK call, its parameters and the global `stripe.Key` (payment-service/main.go:39, 44-53) are replaced by a `StripeOutcome`. Only the Stripe implementation of `PaymentProcessor` is modelled.
- The SMTP transport is left out. `SendEmail` returns the arguments of `smtp.SendMail`. The `localhost` fallback (notification-service/main.go:29-32) can never fire.
- Logging is left out.
- `OrderService.OrderHandler`: the `FOREIGN KEY (user_id)` clause is not modelled. SQLite does not enforce it without `PRAGMA foreign_keys`.
- Integers are unbounded except where the source's width shows: `Atoi`'s 64-bit range, SQLite's largest rowid, and `float64` rounding.
- `FloatFormat.ToFloat64`: the contract does not state that the result is a multiple of the float64 spacing. The body computes it as one, and `FloatFormat.ToFloat64Exact` pins the value for magnitudes up to 2^53.
- `NotificationService.ConfirmationBodyShowsAmount`: amounts beyond 2^53 in magnitude print their rounded value. The body computes that value, but no lemma states its digits.
