# Seat booking ledger

This project models the seat booking ledger of a cinema ticketing backend. The ledger is built from six request handlers in `backend/booking.py` and the seat map in `backend/seats.py`.

The state is the seats catalogue and the `booking`, `book_seat` and `payments` tables, all keyed by `book_id`. Beside them are the users' balances and the auto-increment counter that issues book_ids. A seat is *taken* for a showtime as soon as any `book_seat` row exists for it, whether `pending` or `booked`.

The handlers are:
- `create_booking`: hold one seat. This inserts a booking row, a `pending` seat row and a `Pending` payment.
- `create_booking_bulk`: hold several seats, all or nothing.
- `confirm_booking`: pay for one booking.
- `confirm_all_bookings`: pay for all of a user's Pending bookings with one debit.
- `cancel_booking`: delete a Pending booking.
- `refund_booking`: an admin either deletes an unpaid booking, or credits a Paid one back and deletes it.

Each handler is one transaction. An error reply leaves the database exactly as it was.

The project is organised as follows.

- `tables.dfy` (module `Tables`) holds the rows, the database snapshot `Db` and the lookups the handlers share. It also holds the invariant `Valid`:
  - book_ids are issued by the counter;
  - the three tables hold the same book_ids;
  - there is at most one seat row per (showtime, seat);
  - a payment is Pending exactly when its seat row is pending;
  - no price, amount or balance is negative.
- `ledger.dfy` (module `Ledger`) gives each handler as a function from a snapshot to a `Reply`: the answer plus the snapshot after commit or rollback. `steps.dfy`, `invariants.dfy` and `lifecycle.dfy` prove facts about these functions:
  - every handler keeps `Valid`;
  - how the bulk and confirm-all loops reach the closed forms, one row at a time;
  - properties that relate several handlers, or a handler and the seat map.
- `booking.dfy` (class `Booking.BookingDb`) holds the tables as mutable fields. Each handler is a method that updates them statement by statement, including the two loops. Each method is proved to end in exactly the reply and state the matching `Ledger` function prescribes, and to keep `Valid`.
- `seats.dfy` (module `Seats`) models `get_seats`: the booked-seat set and the loop that marks every seat row available or not.

## Model

| member | source | states |
|---|---|---|
| Tables.FindSeat | backend/booking.py:21-27 | The seat lookup finds nothing exactly when no catalogue row has that seat_id. Otherwise it returns a catalogue row with that id. |
| Tables.FindSeatFirst | backend/booking.py:21-25 | The row the lookup returns (`fetchone`) is the first catalogue row with that seat_id. |
| Tables.Given | backend/booking.py:89-94 | Python truthiness on a request field: an absent key, `null` and 0 are rejected, and any other integer is accepted. The same test guards confirm, confirm-all, cancel and refund (lines 168, 234, 290 and 383). |
| Tables.Taken | backend/booking.py:31-39 | Any seat row for (showtime, seat) makes the seat taken, whether pending or booked. The seat is taken only if such a row exists. |
| Tables.Remove | backend/booking.py:305-307 | The three deletes remove book_id b from booking, book_seat and payments. Every remaining row keeps its value, and seats, balances and counter are unchanged. |
| Ledger.Hold | backend/booking.py:42-71 | A hold answers with the next book_id, the seat and its price, and advances the counter by one. |
| Ledger.CreateBooking | backend/booking.py:13-71 | A missing field gives MissingFields. An unknown seat gives SeatNotFound. Any seat row for (showtime, seat), pending or booked, gives SeatTaken. Every error leaves the database unchanged. Success holds exactly when all three fields are present, the seat exists and it is free. The item is (nextId, seat, price). |
| Ledger.SeatError | backend/booking.py:100-121 | The j-th requested seat fails exactly when it is unknown, already taken, or named earlier in the same request. An unknown seat gives SeatNotFound; a taken or repeated one gives SeatTaken. |
| Ledger.FirstError | backend/booking.py:100-121 | There is no error exactly when no seat from position j on fails. Otherwise it is the error of the first failing position. |
| Ledger.PriceOf | backend/booking.py:102-110 | The amount charged for a known seat is its catalogue price. |
| Ledger.BulkBookingsAt | backend/booking.py:123-128 | A bulk request of count seats adds booking rows exactly at book_ids nextId to nextId+count-1, all for the request's user and showtime. |
| Ledger.BulkSeatRowsAt | backend/booking.py:130-137 | Book_id nextId+k gets a pending seat row for the k-th requested seat, and no other book_id gets one. |
| Ledger.BulkPaymentsAt | backend/booking.py:139-146 | Book_id nextId+k gets a Pending payment of the k-th seat's price, and no other book_id gets one. |
| Ledger.BulkItems | backend/booking.py:148 | The `created` list has one item per requested seat, in request order. The k-th item is (nextId+k, k-th seat, its price). |
| Ledger.CreateBulk | backend/booking.py:88-154 | A missing or zero user or showtime, or an empty seat list, gives MissingFields. Success holds exactly when no seat fails. Every error leaves the database unchanged, which is the rollback. On success all seats are known and the items are BulkItems. A failing request with valid fields answers the error of its first failing seat. |
| Ledger.SetPaid | backend/booking.py:210-213 | Only b's payment changes, to Paid with the same amount. A missing row changes nothing. |
| Ledger.SetBooked | backend/booking.py:214-217 | Only b's seat row changes, to booked with the same showtime and seat. A missing row changes nothing. |
| Ledger.Confirm | backend/booking.py:166-220 | A missing book_id gives MissingFields. Without a Pending payment the reply is NoPending. A Pending payment without a booking row gives BookingNotFound. A missing user row or a balance below the amount gives InsufficientBalance. Every error changes nothing. Success holds exactly when the payment is Pending, the booking exists, and its user's balance covers the amount. Success debits exactly the amount, and the balance stays non-negative. |
| Ledger.PendingFor | backend/booking.py:240-246 | The join row exists only when b has both a booking and a payment. Then it is in the result exactly when the booking belongs to u and the payment is Pending. |
| Ledger.Total | backend/booking.py:251 | The sum of Pending amounts is never negative when the amounts are not, and a single payment sums to its own amount. |
| Ledger.PendingIds | backend/booking.py:240-247 | The listed ids are exactly u's Pending book_ids in the range, in strictly ascending order. |
| Ledger.PendingOf | backend/booking.py:240-247 | The join returns every Pending payment of u (for a valid database), each once. |
| Ledger.MarkPaid | backend/booking.py:264-269 | Marking the listed payments Paid keeps the same set of book_ids. |
| Ledger.MarkBooked | backend/booking.py:270-273 | Marking the listed seat rows booked keeps the same set of book_ids. |
| Ledger.ConfirmAll | backend/booking.py:232-276 | A missing user gives MissingFields. No Pending payments give NoPending. A missing user row or a balance below their sum gives InsufficientBalance. Every error changes nothing. Success holds exactly when u has Pending payments and the balance covers their sum. Success debits exactly the sum, once, and the balance stays non-negative. |
| Ledger.Cancel | backend/booking.py:288-310 | Success holds exactly when b's payment is Pending. It then deletes b's three rows and nothing else. Every other given book_id gets CannotCancel with no change. |
| Ledger.RefundBooking | backend/booking.py:381-425 | PaymentNotFound comes exactly when the payment or booking row is missing, with no change. When both rows exist the refund always succeeds. A non-Paid booking is deleted with no balance change. A Paid one is deleted and its amount is credited to its user (a no-op when the user row is gone). |
| Steps.TakenMidBulk | backend/booking.py:112-121 | Midway through the bulk loop, a seat counts as taken exactly when it was taken before the request or an earlier position of the request named it. |
| Steps.BulkItemsStep | backend/booking.py:148 | Appending the k-th item to the list of the first k gives the list of the first k+1. |
| Steps.BookingsGrow | backend/booking.py:124-128 | Inserting the k-th booking row into the table holding the first k gives the table holding k+1. |
| Steps.SeatRowsGrow | backend/booking.py:131-137 | Same for the pending seat rows. |
| Steps.PaymentsGrow | backend/booking.py:140-146 | Same for the Pending payments. |
| Steps.MarkPaidStep | backend/booking.py:266-269 | One iteration of the confirm-all loop turns the first k payments marked Paid into the first k+1. |
| Steps.MarkBookedStep | backend/booking.py:270-273 | Same for the seat rows marked booked. |
| Invariants.PriceNonNegative | backend/booking.py:102-110 | The amount a hold charges is never negative. |
| Invariants.CreatePreservesValid | backend/booking.py:31-64 | create_booking keeps the database valid. |
| Invariants.BulkRowsOnePerSeat | backend/booking.py:112-137 | The bulk request's seat rows clash neither with each other nor with existing rows, so there is still one row per (showtime, seat). |
| Invariants.BulkSameKeys | backend/booking.py:123-146 | The three bulk tables cover the same book_ids. |
| Invariants.BulkRowsAgree | backend/booking.py:123-146 | After a bulk hold the three tables still share their book_ids, and each new payment is Pending with a pending seat row for the request's showtime. |
| Invariants.BulkNonNegative | backend/booking.py:139-146 | The bulk payments are non-negative. |
| Invariants.BulkIdsIssued | backend/booking.py:123-128 | The bulk book_ids are the ones the counter passes over. |
| Invariants.BulkAddsValid | backend/booking.py:100-150 | Committing a bulk hold whose seats are all free and distinct keeps the database valid. |
| Invariants.BulkPreservesValid | backend/booking.py:88-158 | create_booking_bulk keeps the database valid. |
| Invariants.ConfirmPreservesValid | backend/booking.py:200-217 | confirm_booking keeps the database valid. In particular no balance goes negative. |
| Invariants.ConfirmAllPreservesValid | backend/booking.py:257-273 | confirm_all_bookings keeps the database valid. In particular no balance goes negative. |
| Invariants.CancelPreservesValid | backend/booking.py:301-307 | cancel_booking keeps the database valid. |
| Invariants.RefundPreservesValid | backend/booking.py:402-422 | refund_booking keeps the database valid. |
| Lifecycle.CreateAddsOneTriple | backend/booking.py:42-64 | A successful hold adds exactly one booking row, one pending seat row and one Pending payment of the seat's price. All three go under a book_id no table used. Every existing row and every balance is unchanged. |
| Lifecycle.CreateMakesUnavailable | backend/seats.py:17-27 | After a successful hold of s for st, the seat map shows s unavailable for st. |
| Lifecycle.CreateTwiceTaken | backend/booking.py:31-39 | Holding the same (showtime, seat) again, by any user, gives SeatTaken and changes nothing. |
| Lifecycle.RemoveFreesSeat | backend/booking.py:304-307 | Deleting a booking's rows makes its seat available again for its showtime. |
| Lifecycle.CancelFreesSeat | backend/booking.py:305 | After a successful cancel the seat reports available again. |
| Lifecycle.RefundFreesSeat | backend/booking.py:420 | After a refund, paid or unpaid, the seat reports available again. |
| Lifecycle.CreateThenCancel | backend/booking.py:296-307 | A hold followed by its cancel restores the database, except that the counter has moved one step. |
| Lifecycle.CancelTwice | backend/booking.py:300-302 | A second cancel of the same book_id gives CannotCancel with no change. |
| Lifecycle.ConfirmTouchesOneBooking | backend/booking.py:204-217 | A confirmation makes b's payment Paid and its seat row booked, and debits b's user by the amount. No other row and no other balance changes. |
| Lifecycle.ConfirmKeepsSeatTaken | backend/seats.py:17-22 | A confirmation never changes any seat's availability. |
| Lifecycle.ConfirmThenRefund | backend/booking.py:204-217 | Confirm followed by refund of the same booking returns exactly the amount and restores the user's balance. The result is the pre-confirm database with the booking's rows deleted. |
| Lifecycle.ConfirmAllPaysExactlyPending | backend/booking.py:264-273 | Confirm-all turns exactly u's Pending payments Paid, with their seat rows booked. Every other row is kept and only u's balance changes. Afterwards u has nothing Pending. |
| Lifecycle.BulkRepeatFails | backend/booking.py:113-121 | A request naming the same seat twice fails and changes nothing. |
| Lifecycle.BulkTakenFails | backend/booking.py:113-121 | A request containing a seat already taken for the showtime fails and changes nothing. |
| Lifecycle.BulkAddsTriples | backend/booking.py:123-146 | A successful bulk request adds, for the k-th seat, one booking row, one pending seat row and one Pending payment of its catalogue price. All three go under book_id nextId+k, which no table used before. |
| Lifecycle.BulkKeepsOtherRows | backend/booking.py:123-150 | A successful bulk request adds no book_id outside nextId to nextId+\|ids\|-1, keeps every existing row's value and leaves every balance alone. |
| Lifecycle.BulkCommitted | backend/booking.py:100-150 | A successful bulk request had every seat in the catalogue, and commits the three tables each extended by its bulk rows, with the counter moved past them. |
| Lifecycle.TripleAt | backend/booking.py:123-146 | The k-th triple of a committed bulk request is in place under book_id nextId+k. |
| Lifecycle.BookingsAdded | backend/booking.py:123-128 | The bulk booking rows take fresh book_ids after the existing ones and leave the existing rows alone. |
| Lifecycle.SeatRowsAdded | backend/booking.py:130-137 | The bulk seat rows take fresh book_ids after the existing ones and leave the existing rows alone. |
| Lifecycle.PaymentsAdded | backend/booking.py:139-146 | The bulk payments take fresh book_ids after the existing ones and leave the existing rows alone. |
| Lifecycle.BulkHoldsEverySeat | backend/booking.py:123-154 | After a successful bulk request every listed seat is unavailable and the counter has advanced by the number of seats. The k-th item has book_id nextId+k and the k-th seat. |
| Lifecycle.BulkOfOne | backend/booking.py:88-154 | A one-seat bulk request has the same outcome and database as the single-seat handler on that seat. |
| Lifecycle.BulkOfOneRows | backend/booking.py:123-148 | The rows and item list of a one-seat request. |
| Seats.Available | backend/seats.py:17-27 | Without a showtime every seat is available. Any seat row of the showtime naming the seat, whatever its status, makes it unavailable, and only such a row does. |
| Seats.BookedSeats | backend/seats.py:17-22 | The booked set holds exactly the seats that are not available for the showtime. |
| Seats.GetSeats | backend/seats.py:7-29 | The reply has one entry per seats row, in table order, with its seat_id and label. It is marked available exactly when no seat row of that showtime names the seat. |
| Seats.RowsOf | backend/seats.py:19-21 | The seat rows of one showtime. |
| Seats.OtherShowtimesIrrelevant | backend/seats.py:19-21 | Seat rows of other showtimes never affect availability. |
| Seats.StatusIrrelevant | backend/seats.py:17-22 | Availability ignores the status column, so pending and booked rows block a seat alike. |
| Booking.BookingDb.Insert | backend/booking.py:42-64 | The three inserts under the next book_id, and the counter's step. |
| Booking.BookingDb.CreateBooking | backend/booking.py:8-77 | Ends in exactly the reply and tables of Ledger.CreateBooking, and keeps the database valid. |
| Booking.BookingDb.CreateBulk | backend/booking.py:82-160 | Ends in exactly the reply and tables of Ledger.CreateBulk, and keeps the database valid. It commits the staged rows only when every seat passes. |
| Booking.BookingDb.Stage | backend/booking.py:97-148 | The loop over seat_ids reports the first failing seat's error (FirstError). When all pass, it yields the tables plus exactly the bulk rows and the items in request order. |
| Booking.BookingDb.Confirm | backend/booking.py:165-226 | Ends in exactly the reply and tables of Ledger.Confirm, and keeps the database valid. |
| Booking.BookingDb.ConfirmAll | backend/booking.py:231-282 | Ends in exactly the reply and tables of Ledger.ConfirmAll, and keeps the database valid. |
| Booking.BookingDb.MarkAll | backend/booking.py:264-273 | The loop marks exactly the listed payments Paid and their seat rows booked, and changes nothing else. |
| Booking.BookingDb.Cancel | backend/booking.py:287-316 | Ends in exactly the reply and tables of Ledger.Cancel, and keeps the database valid. |
| Booking.BookingDb.RefundBooking | backend/booking.py:380-431 | Ends in exactly the reply and tables of Ledger.RefundBooking, and keeps the database valid. |

## Left out

- HTTP status codes and JSON message texts are left out. Each error reply is an `Error` value. The `except` branch is not modelled, and neither are the database errors it reports as 400, such as a foreign-key failure on an unknown user or showtime. The model has no foreign keys.
- Request bodies are modelled as optional integers.
  - For `create_booking`, a field is present exactly when its key is in the body, so a key with value 0 is accepted.
  - A key present with a JSON `null` value is not distinguished from an integer.
  - For the other handlers the truthiness test rejects an absent key, `null` and 0 alike.
  - A `seat_ids` value that is not a list is folded into the empty list: both give MissingFields.
- Concurrency is left out. The `FOR UPDATE` row locks exist for concurrent requests; each handler is one atomic step, where commit applies all its effects and rollback or an early return applies none.
- Money is left out as floating point. `float(...)` conversions of DECIMAL prices, amounts and balances are modelled as integers in the smallest currency unit.
- Booking.BookingDb.CreateBulk: a rolled-back bulk request also restores the auto-increment counter. MySQL/InnoDB would keep the ids it handed out, so later book_ids may differ from the database's. No property here depends on the exact values.
- Ledger.PendingOf: the order of the confirm-all query's rows is unspecified, so the model takes ascending book_id. The result does not depend on the order, since each row is marked once and the sum is a sum.
- Ledger.PriceOf: it returns 0 for a seat not in the catalogue. It is only used for seats the bulk handler has already found.
- Seats.GetSeats builds a new list of `SeatView` values instead of adding an `available` key to each fetched row in place. The request's `showtime_id` is an optional integer; an absent one matches no row.
- The `transactions` and `list_bookings` read-only joins (backend/booking.py:320-375) are left out. So are the movie, showtime, user and authentication handlers, the application wiring and the frontend. They are not part of this model.
- Some features are absent from the code, so they are not modelled: hold expiry, a TTL, background reaping, and booking states such as Cancelled, Expired or Refunded.
- Booking records have no terminal status. Cancel and refund delete all three rows, so the seat becomes free again. A refund of a booking that is not Paid deletes it, without a refund, rather than failing.
