# Library service: borrowing and payment bookkeeping in Dafny

This project models the bookkeeping core of a library-borrowing web service. Users borrow books, pay a rental fee or a late fine through a hosted checkout, and get Telegram notifications. The model covers five things:

- **Records.** Books have an inventory counter and a daily fee. Borrowings have a borrowing date, an expected return date and an optional actual return date. Payments have a status, a type, a checkout session and an amount. Money is held as integer cents, because every money column is a two-decimal `DecimalField`. Dates are integer day numbers.
- **Reservation.** The create serializer re-reads the book inside a locked transaction. Only while a unit is left does it take that unit and insert the borrowing. `Store.Library.Create` is that block, as one atomic method on a store class. The store keeps its tables as maps from id to record.
- **Checkout.** The amount is the daily fee times the rental days for a payment, and twice the daily fee times the overdue days for a fine. The gateway call is an input outcome: a session or an error text. A `Payment` row is stored only when a session comes back.
- **Visibility.** The borrowing and payment viewsets choose which rows a user sees and which serializer each action uses. These are pure selections over a sequence of rows.
- **Notifications.** The daily overdue scan sends one alert per overdue borrowing, or one fallback message. A new borrowing gets its own message. The send wrapper swallows bot errors.

Modules: `Wrappers` and `Seqs` (Option, Result, filter and lookup over rows), `Books`, `Borrowings`, `Payments` (the three models), `Reservation` (validation and the locked decision), `PaymentService`, `Views`, `Notifications`, and `Store` (class `Library`: the tables and every operation that changes them).

Inputs that are I/O, a clock or a foreign call are parameters. These are `today`, the gateway outcome, the bot's error and the two day counts.

The model follows the code, including where it does less than such a service usually would:
- No check that the expected return date is on or after today.
- No fine-gated return and no payment reconciliation.
- A gateway failure is returned to the caller as a plain string, not raised.
- Nothing limits a borrowing to one pending payment per type.

## Model

| member | source | states |
|---|---|---|
| `Books.CoverCode` | books/models.py:5-13 | a cover is stored as HARD or SOFT, within the 4-character column |
| `Books.ParseCover` | books/models.py:11-13 | exactly the two codes read back as a cover, and each as the cover that stores it (round trip) |
| `Books.BookLabel` | books/models.py:20-21 | the string form starts with the title and ends with the author in parentheses |
| `Books.ReduceInventory` | borrowings/serializers.py:38 | the reserved book has exactly one unit fewer and is otherwise unchanged (assumed behaviour of `reduce_inventory`) |
| `Books.IncreaseInventory` | borrowings/tests/test_borrowings_api.py:148 | a returned book has exactly one unit more and is otherwise unchanged |
| `Books.ReturnUndoesReservation` | borrowings/tests/test_borrowings_api.py:133-148 | a return restores the book exactly as it was before its unit was reserved |
| `Books.BookFromPayload` | books/tests/test_books_api.py:166-178 | an admin-created book stores every payload field as given, and an omitted cover becomes HARD |
| `Books.UpdatedBook` | books/tests/test_books_api.py:180-193 | an admin update stores every payload field as given, keeps the id, and keeps the cover when none is sent |
| `Books.TitleLeTotal` | books/models.py:17-18 | any two titles are comparable in the listing order |
| `Books.TitleLeTransitive` | books/models.py:17-18 | the title order is transitive |
| `Books.OrderByTitle` | books/models.py:17-18 | a book listing is ordered by title, ascending, and is a permutation of the books |
| `Books.OrderedByTitleAllPairs` | books/models.py:17-18 | in an ordered listing every earlier title is at most every later one |
| `Borrowings.NewBorrowing` | borrowings/models.py:7-18 | a new borrowing is active, dated the creation day, owned by the requester, for the requested book and due date |
| `Borrowings.MarkReturned` | borrowings/tests/test_borrowings_api.py:133-148 | a returned borrowing is no longer active or overdue, carries today's return date, and nothing else changes |
| `Borrowings.DueTodayIsNotOverdue` | notifications/tasks.py:9 | a borrowing due exactly today is not overdue (strict comparison) |
| `Payments.StatusCode` | payments/models.py:7-9 | status is PENDING or PAID, within the 7-character column |
| `Payments.ParseStatus` | payments/models.py:15-17 | exactly the two status codes read back, each as the status that stores it |
| `Payments.TypeCode` | payments/models.py:11-13 | type is PAYMENT or FINE, within the 7-character column |
| `Payments.ParseTransactionType` | payments/models.py:18 | exactly PAYMENT and FINE are transaction types, each read back as the type that stores it |
| `Reservation.ValidateBook` | borrowings/serializers.py:28-31 | validation refuses exactly the books with inventory <= 0, with the out-of-stock message, and passes the others through unchanged |
| `Reservation.ReserveUnit` | borrowings/serializers.py:36-38 | the locked block takes a unit exactly when inventory > 0, and the counter it leaves is never negative |
| `Reservation.ValidationAgreesWithLock` | borrowings/serializers.py:28-38 | with no concurrent change, validation and the locked re-check accept the same books |
| `Reservation.ReserveRunCount` | borrowings/serializers.py:35-42 | N reservations in a row against K >= 0 units succeed exactly min(N, K) times and leave K - min(N, K) >= 0 units |
| `Reservation.ReserveRunNegativeStock` | borrowings/serializers.py:37 | a book whose counter is already negative is never reserved and never changed |
| `PaymentService.CalculateAmount` | payments/services.py:58-68 | PAYMENT costs fee x duration days, FINE costs 2 x fee x overdue days, and any other type is an error naming it |
| `PaymentService.FineIsTwiceRental` | payments/services.py:59-66 | for the same number of days a fine is exactly twice the rental |
| `PaymentService.TruncateTowardZero` | payments/services.py:25 | `int()` keeps the sign and drops the fraction toward zero |
| `PaymentService.UnitAmount` | payments/services.py:25 | `int(amount * 100)` equals the amount in cents exactly |
| `PaymentService.SessionRequestFor` | payments/services.py:17-42 | the gateway is asked for one USD line item of the amount in cents, named after the type and title, with the borrowing id and type as metadata |
| `Views.BorrowingQueryset` | borrowings/views.py:24-35 | a row is listed iff it is in the table, the viewer is staff or owns it, and (when `is_active` is non-empty) it is active; the result is a subset of the table |
| `Views.StaffSeeAllBorrowings` | borrowings/views.py:25-28 | without `is_active`, staff get the whole table |
| `Views.IsActiveFalseStillFilters` | borrowings/views.py:30-33 | `is_active=false` still hides returned borrowings that are listed without it |
| `Views.RetrieveBorrowing` | borrowings/tests/test_borrowings_api.py:95-107 | a borrowing with the asked id is found iff some row with that id is visible to the viewer (and active, when `is_active` is non-empty); a found row has the id, is visible, and is active under `is_active` |
| `Views.OtherUsersBorrowingNotFound` | borrowings/tests/test_borrowings_api.py:103-107 | a non-staff user gets "not found" for another user's borrowing |
| `Views.StaffRetrieveAnyBorrowing` | borrowings/views.py:25-28 | staff find every borrowing in the table |
| `Views.BorrowingSerializerClass` | borrowings/views.py:37-51 | admin serializers exactly for staff on list/retrieve, user ones for others, create serializer exactly on create, base serializer otherwise |
| `Views.PaymentQueryset` | payments/views.py:19-26 | on list/retrieve non-staff see exactly the payments of their own borrowings; staff, and any other action, see all |
| `Views.RetrievePayment` | payments/tests/test_payments_api.py:98-109 | a payment with the asked id is found iff some row with that id is staff-visible or belongs to one of the viewer's borrowings; a found row has the id and, for non-staff, is the viewer's |
| `Views.OtherUsersPaymentNotFound` | payments/tests/test_payments_api.py:106-109 | a non-staff user gets "not found" for a payment of another user's borrowing |
| `Views.PaymentSerializerClass` | payments/views.py:28-31 | the list serializer exactly on list, the full serializer on every other action |
| `Notifications.SendNotification` | notifications/telegram.py:23-28 | a message is delivered when the bot succeeds; a bot failure is logged and never reaches the caller |
| `Notifications.BorrowingCreateNotification` | notifications/telegram.py:31-40 | the new-borrowing message carries the user's email, the book title, the due date and the book's inventory minus one |
| `Notifications.CreateNotificationReportsRemainingStock` | notifications/telegram.py:37 | given the book as it was before the reservation, the reported stock is what the reservation left, never negative |
| `Notifications.Overdue` | notifications/tasks.py:7-10 | the overdue selection is exactly the active rows due strictly before today |
| `Notifications.CheckOverdueBorrowings` | notifications/tasks.py:6-22 | one alert per overdue borrowing in query order, or the single fallback message; max(1, overdue count) messages; no row changes |
| `Store.Library.CreateBook` | books/tests/test_books_api.py:166-178 | a valid payload is stored under a fresh id with every field as given; an invalid one is refused and nothing changes |
| `Store.Library.UpdateBook` | books/tests/test_books_api.py:180-193 | succeeds iff the id exists and the payload is valid, and then only that book changes, to the payload; an unknown id is not found and an invalid payload refused, with no change |
| `Store.Library.DeleteBook` | books/tests/test_books_api.py:195-199 | the book is removed, along with its borrowings and their payments (cascade); nothing else changes |
| `Store.Library.Create` | borrowings/serializers.py:33-42 | succeeds iff the book exists with inventory > 0; then only that book loses one unit and exactly one new active borrowing is inserted; otherwise nothing changes; never drives inventory below 0 |
| `Store.Library.PostBorrowing` | borrowings/views.py:53-54 | a POST succeeds iff the book exists and passes validation; then only that book loses one unit and exactly one borrowing is added, owned by the requesting user, dated today, with the requested book and due date; otherwise nothing changes |
| `Store.Library.Return` | borrowings/tests/test_borrowings_api.py:133-161 | succeeds iff the borrowing exists, is visible to the viewer and is active; then it gets today's return date and its book one unit back, nothing else changing; otherwise not found or already returned, with no change |
| `Store.Library.DeleteBorrowing` | payments/models.py:19-21 | deleting a borrowing deletes exactly the payments that belong to it |
| `Store.Library.CreateCheckoutSession` | payments/services.py:14-55 | an invalid type raises before the gateway is asked; a gateway error returns its text; in both cases no row is stored. A session stores exactly one PENDING payment and returns its URL. That payment has the given type, the computed amount, and the session id and URL |

`notifications/telegram.py:43-59` repeats the overdue scan of `notifications/tasks.py:6-22` line for line. `Notifications.Overdue` and `Notifications.CheckOverdueBorrowings` model both.

## Left out

- Store.Library.Create: `reduce_inventory` is not defined in books/models.py, so it is taken as "inventory := inventory - 1".
- PaymentService.CalculateAmount: `get_duration_days` and `get_overdue_days` are not defined in borrowings/models.py. The two day counts are parameters, so the model does not tie them to the borrowing's dates.
- Store.Library.Return: no return view exists in borrowings/views.py. The method follows what the return tests expect. There is no fine gating and no payment check.
- The Stripe call is not modelled. Its answer is the `GatewayOutcome` parameter.
- Store.Library.CreateCheckoutSession: the success and cancel URLs are built with `reverse` inside the `try`, but payments/urls.py registers no such routes. As the code stands, that `reverse` raises, the handler returns the exception text, the gateway is never called and no payment is stored. The model's `GatewayError` case covers that outcome; its `Session` case describes the path once those routes exist, and cannot occur with the routes as shown.
- Views.BorrowingSerializerClass: the two admin serializers that borrowings/views.py imports are not defined in borrowings/serializers.py; the model assumes they exist and only names which one each action selects.
- The Telegram transport is not modelled. Sending is handing a `Message` over, and the HTML text is not modelled: only the fields a message carries.
- notifications/bot.py's `send_notification`, which lets bot errors propagate, is not modelled.
- `transaction.atomic` and `select_for_update` are not modelled. Each store method is one atomic step, so concurrent interleavings are not modelled.
- Store.Library.PostBorrowing: validation and the locked re-check read the same book. The model therefore cannot show a concurrent change landing between them.
- Scheduling, URL routing, admin registration, serializer field lists and 401/403 responses are framework plumbing and are not modelled.
- The code has no admin `user_id` filter. One test expects it, and the model does not add it.
- Retrieving a payment uses `PaymentSerializer`. A test expects `PaymentDetailSerializer`, but the code does not select it. The model follows the code.
- The code never marks a payment PAID, never reuses a pending fine checkout and never checks the expected return date. None of these is modelled.
- The migration makes a payment's borrowing link one-to-one, but payments/models.py declares a plain foreign key. The model follows the model file and allows many payments per borrowing.
- The view code shown never calls checkout creation or the new-borrowing notification after a borrowing is created. They are modelled as separate operations.
- Books.OrderByTitle: titles are compared by character code. Database collation rules are not modelled.
- Store.Library.CreateBook: DRF's whitespace trimming of text fields and the database's integer range for `inventory` are not modelled.
- Store.Library.CreateCheckoutSession: the 10-digit limit of `money_to_pay` is not checked when the payment row is inserted. A database overflow error is not modelled.
- The string forms of Borrowing and Payment, and the cover display labels, are presentation and are not modelled.
- The user model is not part of this model. A user is an id, an email and a staff flag.
