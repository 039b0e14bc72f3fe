/**
  The six booking handlers as functions from one database snapshot to the reply
  and the snapshot after commit. Every handler is one transaction: an error
  reply always comes with the snapshot it started from (an early return before
  any write, or a rollback).
 */
module Ledger {
  import opened Tables

  /** The handlers' error replies, without their HTTP status codes and messages. */
  datatype Error =
    | MissingFields            // 400 "missing required fields" / "... required"
    | SeatNotFound(seat: SeatId)   // 404 "seat not found"
    | SeatTaken(seat: SeatId)      // 409 "seat already taken"
    | NoPending                // 400 "no pending payment(s)"
    | BookingNotFound          // 404 "booking not found"
    | InsufficientBalance      // 400 "insufficient balance"
    | CannotCancel             // 400 "cannot cancel"
    | PaymentNotFound          // 404 "Payment not found"

  datatype Result<T> = Ok(value: T) | Err(error: Error)

  /** What a handler answers, and the database after its transaction. */
  datatype Reply<T> = Reply(result: Result<T>, db: Db)

  /** One held seat: its new book_id, the seat and the amount to pay. */
  datatype Item = Item(bookId: BookId, seat: SeatId, amount: int)

  /** The two successful answers of the admin refund. */
  datatype Refund = CancelledUnpaid | Refunded(amount: int)

  // ---------------------------------------------------------------------------
  // create_booking

  /** The three inserts of a hold: a booking row, a pending book_seat row and a
      Pending payment of the seat's price, all under the next book_id. */
  function Hold(db: Db, u: UserId, st: ShowtimeId, seat: Seat): (r: Reply<Item>)
    ensures r.result.Ok? && r.result.value.bookId == db.nextId
    ensures r.result.value.seat == seat.id && r.result.value.amount == seat.price
    ensures r.db.nextId == db.nextId + 1
  {
    var id := db.nextId;
    Reply(Ok(Item(id, seat.id, seat.price)),
          db.(bookings := db.bookings[id := BookingRow(u, st)],
              bookSeat := db.bookSeat[id := SeatRow(st, seat.id, SeatPending)],
              payments := db.payments[id := PaymentRow(seat.price, Pending)],
              nextId := id + 1))
  }

  /** create_booking: the three fields must be present; the seat must exist and
      have no book_seat row for the showtime, pending or booked. */
  function CreateBooking(db: Db, user: Option<UserId>, showtime: Option<ShowtimeId>, seat: Option<SeatId>)
    : (r: Reply<Item>)
    ensures r.result.Err? ==> r.db == db
    ensures r.result == Err(MissingFields) <==> user.None? || showtime.None? || seat.None?
    ensures r.result.Ok? <==>
              && user.Some? && showtime.Some? && seat.Some?
              && FindSeat(db.seats, seat.value).Some?
              && !Taken(db.bookSeat, showtime.value, seat.value)
    ensures r.result.Ok? ==> r.result.value == Item(db.nextId, seat.value, FindSeat(db.seats, seat.value).value.price)
    ensures user.Some? && showtime.Some? && seat.Some? && FindSeat(db.seats, seat.value).None? ==>
              r.result == Err(SeatNotFound(seat.value))
    ensures user.Some? && showtime.Some? && seat.Some? && FindSeat(db.seats, seat.value).Some? &&
            Taken(db.bookSeat, showtime.value, seat.value) ==>
              r.result == Err(SeatTaken(seat.value))
  {
    if user.None? || showtime.None? || seat.None? then Reply(Err(MissingFields), db)
    else
      match FindSeat(db.seats, seat.value)
      case None => Reply(Err(SeatNotFound(seat.value)), db)
      case Some(row) =>
        if Taken(db.bookSeat, showtime.value, seat.value) then Reply(Err(SeatTaken(seat.value)), db)
        else Hold(db, user.value, showtime.value, row)
  }

  // ---------------------------------------------------------------------------
  // create_booking_bulk

  /** The error that the j-th requested seat raises, given that the seats before
      it in the request were already inserted by the same transaction. */
  function SeatError(db: Db, st: ShowtimeId, ids: seq<SeatId>, j: nat): (e: Option<Error>)
    requires j < |ids|
    ensures e.None? <==> FindSeat(db.seats, ids[j]).Some? && !Taken(db.bookSeat, st, ids[j]) && ids[j] !in ids[..j]
    ensures FindSeat(db.seats, ids[j]).None? ==> e == Some(SeatNotFound(ids[j]))
    ensures FindSeat(db.seats, ids[j]).Some? && (Taken(db.bookSeat, st, ids[j]) || ids[j] in ids[..j]) ==>
              e == Some(SeatTaken(ids[j]))
  {
    if FindSeat(db.seats, ids[j]).None? then Some(SeatNotFound(ids[j]))
    else if Taken(db.bookSeat, st, ids[j]) || ids[j] in ids[..j] then Some(SeatTaken(ids[j]))
    else None
  }

  /** The error of the first failing seat at or after position j, if any. */
  function FirstError(db: Db, st: ShowtimeId, ids: seq<SeatId>, j: nat): (e: Option<Error>)
    requires j <= |ids|
    ensures e.None? <==> forall k :: j <= k < |ids| ==> SeatError(db, st, ids, k).None?
    ensures e.Some? ==> exists k :: j <= k < |ids| && SeatError(db, st, ids, k) == e &&
                                    forall i :: j <= i < k ==> SeatError(db, st, ids, i).None?
    decreases |ids| - j
  {
    if j == |ids| then None
    else if SeatError(db, st, ids, j).Some? then SeatError(db, st, ids, j)
    else FirstError(db, st, ids, j + 1)
  }

  /** Every requested seat exists (so has a price). */
  ghost predicate AllKnown(seats: seq<Seat>, ids: seq<SeatId>) {
    forall i :: 0 <= i < |ids| ==> FindSeat(seats, ids[i]).Some?
  }

  /** The price of a listed seat; an unlisted one never reaches a payment row, and
      0 stands in for it so that the bulk tables need no precondition. */
  function PriceOf(seats: seq<Seat>, s: SeatId): (p: int)
    ensures FindSeat(seats, s).Some? ==> p == FindSeat(seats, s).value.price
  {
    match FindSeat(seats, s)
    case None => 0
    case Some(seat) => seat.price
  }

  /** The booking rows of a bulk request of count seats whose first book_id is n. */
  function BulkBookings(n: BookId, u: UserId, st: ShowtimeId, count: nat): map<BookId, BookingRow> {
    if count == 0 then map[] else BulkBookings(n, u, st, count - 1)[n + count - 1 := BookingRow(u, st)]
  }

  /** The pending book_seat rows: the k-th requested seat under book_id n + k. */
  function BulkSeatRows(n: BookId, st: ShowtimeId, ids: seq<SeatId>): map<BookId, SeatRow> {
    if ids == [] then map[]
    else BulkSeatRows(n, st, ids[..|ids| - 1])[n + |ids| - 1 := SeatRow(st, ids[|ids| - 1], SeatPending)]
  }

  /** The Pending payments: the k-th requested seat's price under book_id n + k. */
  function BulkPayments(n: BookId, seats: seq<Seat>, ids: seq<SeatId>): map<BookId, PaymentRow> {
    if ids == [] then map[]
    else BulkPayments(n, seats, ids[..|ids| - 1])[n + |ids| - 1 := PaymentRow(PriceOf(seats, ids[|ids| - 1]), Pending)]
  }

  /** A bulk request of count seats fills exactly book_ids n to n + count - 1, all for u and st. */
  lemma {:induction false} BulkBookingsAt(n: BookId, u: UserId, st: ShowtimeId, count: nat)
    ensures forall b :: b in BulkBookings(n, u, st, count) <==> n <= b < n + count
    ensures forall b :: b in BulkBookings(n, u, st, count) ==> BulkBookings(n, u, st, count)[b] == BookingRow(u, st)
  {
    if count > 0 {
      BulkBookingsAt(n, u, st, count - 1);
    }
  }

  /** Book_id n + k holds the k-th requested seat, for every position k of the request. */
  lemma {:induction false} BulkSeatRowsAt(n: BookId, st: ShowtimeId, ids: seq<SeatId>)
    ensures forall b :: b in BulkSeatRows(n, st, ids) <==> n <= b < n + |ids|
    ensures forall b :: b in BulkSeatRows(n, st, ids) ==> BulkSeatRows(n, st, ids)[b] == SeatRow(st, ids[b - n], SeatPending)
  {
    if ids != [] {
      var last := |ids| - 1;
      BulkSeatRowsAt(n, st, ids[..last]);
      assert BulkSeatRows(n, st, ids) == BulkSeatRows(n, st, ids[..last])[n + last := SeatRow(st, ids[last], SeatPending)];
      forall b | b in BulkSeatRows(n, st, ids) ensures BulkSeatRows(n, st, ids)[b] == SeatRow(st, ids[b - n], SeatPending) {
        if b != n + last { assert ids[..last][b - n] == ids[b - n]; }
      }
    }
  }

  /** Book_id n + k is charged the price of the k-th requested seat. */
  lemma {:induction false} BulkPaymentsAt(n: BookId, seats: seq<Seat>, ids: seq<SeatId>)
    ensures forall b :: b in BulkPayments(n, seats, ids) <==> n <= b < n + |ids|
    ensures forall b :: b in BulkPayments(n, seats, ids) ==>
              BulkPayments(n, seats, ids)[b] == PaymentRow(PriceOf(seats, ids[b - n]), Pending)
  {
    if ids != [] {
      var last := |ids| - 1;
      BulkPaymentsAt(n, seats, ids[..last]);
      assert BulkPayments(n, seats, ids) == BulkPayments(n, seats, ids[..last])[n + last := PaymentRow(PriceOf(seats, ids[last]), Pending)];
      forall b | b in BulkPayments(n, seats, ids) ensures BulkPayments(n, seats, ids)[b] == PaymentRow(PriceOf(seats, ids[b - n]), Pending) {
        if b != n + last { assert ids[..last][b - n] == ids[b - n]; }
      }
    }
  }

  /** The `created` list, in request order. */
  function BulkItems(n: BookId, seats: seq<Seat>, ids: seq<SeatId>): (items: seq<Item>)
    ensures |items| == |ids|
    ensures forall k :: 0 <= k < |ids| ==> items[k] == Item(n + k, ids[k], PriceOf(seats, ids[k]))
  {
    seq(|ids|, k requires 0 <= k < |ids| => Item(n + k, ids[k], PriceOf(seats, ids[k])))
  }

  /** create_booking_bulk: user, showtime and a non-empty seat list are required;
      then all seats are held, or the first failing seat's error is returned and
      the transaction is rolled back. */
  function CreateBulk(db: Db, user: Option<UserId>, showtime: Option<ShowtimeId>, seatIds: seq<SeatId>)
    : (r: Reply<seq<Item>>)
    ensures r.result.Err? ==> r.db == db
    ensures r.result == Err(MissingFields) <==> !Given(user) || !Given(showtime) || seatIds == []
    ensures r.result.Ok? <==>
              && Given(user) && Given(showtime) && seatIds != []
              && forall k :: 0 <= k < |seatIds| ==> SeatError(db, showtime.value, seatIds, k).None?
    ensures r.result.Ok? ==> AllKnown(db.seats, seatIds) && r.result.value == BulkItems(db.nextId, db.seats, seatIds)
    ensures Given(user) && Given(showtime) && seatIds != [] && r.result.Err? ==>
              Some(r.result.error) == FirstError(db, showtime.value, seatIds, 0)
  {
    if !Given(user) || !Given(showtime) || seatIds == [] then Reply(Err(MissingFields), db)
    else
      var st := showtime.value;
      match FirstError(db, st, seatIds, 0)
      case Some(e) => Reply(Err(e), db)
      case None =>
        var n := db.nextId;
        assert AllKnown(db.seats, seatIds) by {
          forall k | 0 <= k < |seatIds| ensures FindSeat(db.seats, seatIds[k]).Some? {
            assert SeatError(db, st, seatIds, k).None?;
          }
        }
        Reply(Ok(BulkItems(n, db.seats, seatIds)),
              db.(bookings := db.bookings + BulkBookings(n, user.value, st, |seatIds|),
                  bookSeat := db.bookSeat + BulkSeatRows(n, st, seatIds),
                  payments := db.payments + BulkPayments(n, db.seats, seatIds),
                  nextId := n + |seatIds|))
  }

  // ---------------------------------------------------------------------------
  // confirm_booking

  /** `UPDATE payments SET status = 'Paid' WHERE book_id = b`; no row, no change. */
  function SetPaid(payments: map<BookId, PaymentRow>, b: BookId): (r: map<BookId, PaymentRow>)
    ensures r.Keys == payments.Keys
    ensures b in payments ==> r[b] == PaymentRow(payments[b].amount, Paid)
    ensures forall c :: c in payments && c != b ==> r[c] == payments[c]
  {
    if b in payments then payments[b := payments[b].(status := Paid)] else payments
  }

  /** `UPDATE book_seat SET status = 'booked' WHERE book_id = b`; no row, no change. */
  function SetBooked(bookSeat: map<BookId, SeatRow>, b: BookId): (r: map<BookId, SeatRow>)
    ensures r.Keys == bookSeat.Keys
    ensures b in bookSeat ==> r[b] == SeatRow(bookSeat[b].showtime, bookSeat[b].seat, SeatBooked)
    ensures forall c :: c in bookSeat && c != b ==> r[c] == bookSeat[c]
  {
    if b in bookSeat then bookSeat[b := bookSeat[b].(status := SeatBooked)] else bookSeat
  }

  /** confirm_booking: the booking must have a Pending payment and its user must
      afford the amount; then the balance is debited, the payment becomes Paid
      and the seat row booked. */
  function Confirm(db: Db, bookId: Option<BookId>): (r: Reply<()>)
    ensures r.result.Err? ==> r.db == db
    ensures r.result == Err(MissingFields) <==> !Given(bookId)
    ensures Given(bookId) && !(bookId.value in db.payments && db.payments[bookId.value].status == Pending) ==>
              r.result == Err(NoPending)
    ensures Given(bookId) && bookId.value in db.payments && db.payments[bookId.value].status == Pending &&
            bookId.value !in db.bookings ==>
              r.result == Err(BookingNotFound)
    ensures Given(bookId) && bookId.value in db.payments && db.payments[bookId.value].status == Pending &&
            bookId.value in db.bookings &&
            (db.bookings[bookId.value].user !in db.balance ||
             db.balance[db.bookings[bookId.value].user] < db.payments[bookId.value].amount) ==>
              r.result == Err(InsufficientBalance)
    ensures r.result.Ok? ==>
              var b := bookId.value;
              && b in db.payments && db.payments[b].status == Pending && b in db.bookings
              && var u := db.bookings[b].user;
              && u in db.balance && db.balance[u] >= db.payments[b].amount
              && r.db.balance == db.balance[u := db.balance[u] - db.payments[b].amount]
              && r.db.balance[u] >= 0
    ensures r.result.Ok? <==>
              && Given(bookId) && bookId.value in db.payments && db.payments[bookId.value].status == Pending
              && bookId.value in db.bookings && db.bookings[bookId.value].user in db.balance
              && db.balance[db.bookings[bookId.value].user] >= db.payments[bookId.value].amount
  {
    if !Given(bookId) then Reply(Err(MissingFields), db)
    else
      var b := bookId.value;
      if b !in db.payments || db.payments[b].status != Pending then Reply(Err(NoPending), db)
      else if b !in db.bookings then Reply(Err(BookingNotFound), db)
      else
        var amount := db.payments[b].amount;
        var u := db.bookings[b].user;
        if u !in db.balance || db.balance[u] < amount then Reply(Err(InsufficientBalance), db)
        else
          Reply(Ok(()),
                db.(balance := db.balance[u := db.balance[u] - amount],
                    payments := SetPaid(db.payments, b),
                    bookSeat := SetBooked(db.bookSeat, b)))
  }

  // ---------------------------------------------------------------------------
  // confirm_all_bookings

  /** The join of booking and payments: b is a Pending payment of user u. */
  predicate PendingFor(db: Db, u: UserId, b: BookId): (p: bool)
    ensures p ==> b in db.bookings && b in db.payments
    ensures b in db.bookings && b in db.payments ==>
              (p <==> db.bookings[b].user == u && db.payments[b].status == Pending)
  {
    b in db.bookings && db.bookings[b].user == u && b in db.payments && db.payments[b].status == Pending
  }

  /** u's Pending book_ids in [lo, hi), in ascending order. */
  function PendingIds(db: Db, u: UserId, lo: int, hi: int): (ids: seq<BookId>)
    ensures forall b :: b in ids <==> lo <= b < hi && PendingFor(db, u, b)
    ensures forall i :: 0 <= i < |ids| ==> PendingFor(db, u, ids[i])
    ensures forall i, j :: 0 <= i < j < |ids| ==> ids[i] < ids[j]
    decreases hi - lo
  {
    if lo >= hi then []
    else
      var rest := PendingIds(db, u, lo + 1, hi);
      assert forall j :: 0 <= j < |rest| ==> lo < rest[j] by {
        forall j | 0 <= j < |rest| ensures lo < rest[j] { assert rest[j] in rest; }
      }
      (if PendingFor(db, u, lo) then [lo] else []) + rest
  }

  /** The rows the confirm-all query returns: every Pending payment of u, once each,
      by ascending book_id (every issued book_id lies in [1, nextId)). */
  function PendingOf(db: Db, u: UserId): (ids: seq<BookId>)
    ensures forall i :: 0 <= i < |ids| ==> PendingFor(db, u, ids[i])
    ensures IdsIssued(db) ==> forall b :: b in ids <==> PendingFor(db, u, b)
    ensures forall i, j :: 0 <= i < j < |ids| ==> ids[i] != ids[j]
  {
    PendingIds(db, u, 1, db.nextId)
  }

  /** The sum of the amounts of the listed payments. */
  function Total(payments: map<BookId, PaymentRow>, ids: seq<BookId>): (t: int)
    requires forall i :: 0 <= i < |ids| ==> ids[i] in payments
    ensures (forall i :: 0 <= i < |ids| ==> payments[ids[i]].amount >= 0) ==> t >= 0
    ensures |ids| == 1 ==> t == payments[ids[0]].amount
  {
    if ids == [] then 0 else payments[ids[0]].amount + Total(payments, ids[1..])
  }

  /** `UPDATE payments SET status = 'Paid'` for each listed book_id. */
  function MarkPaid(payments: map<BookId, PaymentRow>, ids: seq<BookId>): (r: map<BookId, PaymentRow>)
    ensures r.Keys == payments.Keys
  {
    map b | b in payments :: if b in ids then payments[b].(status := Paid) else payments[b]
  }

  /** `UPDATE book_seat SET status = 'booked'` for each listed book_id. */
  function MarkBooked(bookSeat: map<BookId, SeatRow>, ids: seq<BookId>): (r: map<BookId, SeatRow>)
    ensures r.Keys == bookSeat.Keys
  {
    map b | b in bookSeat :: if b in ids then bookSeat[b].(status := SeatBooked) else bookSeat[b]
  }

  /** confirm_all_bookings: u must have Pending payments whose sum the balance
      covers; then the sum is debited once and every one of them is paid. */
  function ConfirmAll(db: Db, user: Option<UserId>): (r: Reply<()>)
    ensures r.result.Err? ==> r.db == db
    ensures r.result == Err(MissingFields) <==> !Given(user)
    ensures Given(user) && PendingOf(db, user.value) == [] ==> r.result == Err(NoPending)
    ensures r.result.Ok? <==>
              && Given(user) && PendingOf(db, user.value) != []
              && user.value in db.balance
              && db.balance[user.value] >= Total(db.payments, PendingOf(db, user.value))
    ensures Given(user) && PendingOf(db, user.value) != [] &&
            (user.value !in db.balance || db.balance[user.value] < Total(db.payments, PendingOf(db, user.value))) ==>
              r.result == Err(InsufficientBalance)
    ensures r.result.Ok? ==>
              var u := user.value;
              var total := Total(db.payments, PendingOf(db, u));
              && u in db.balance && db.balance[u] >= total
              && r.db.balance == db.balance[u := db.balance[u] - total]
              && r.db.balance[u] >= 0
  {
    if !Given(user) then Reply(Err(MissingFields), db)
    else
      var u := user.value;
      var pending := PendingOf(db, u);
      if pending == [] then Reply(Err(NoPending), db)
      else
        var total := Total(db.payments, pending);
        if u !in db.balance || db.balance[u] < total then Reply(Err(InsufficientBalance), db)
        else
          Reply(Ok(()),
                db.(balance := db.balance[u := db.balance[u] - total],
                    payments := MarkPaid(db.payments, pending),
                    bookSeat := MarkBooked(db.bookSeat, pending)))
  }

  // ---------------------------------------------------------------------------
  // cancel_booking

  /** cancel_booking: only a booking whose payment is Pending can be cancelled;
      its three rows are deleted, which frees the seat. */
  function Cancel(db: Db, bookId: Option<BookId>): (r: Reply<()>)
    ensures r.result.Err? ==> r.db == db
    ensures r.result == Err(MissingFields) <==> !Given(bookId)
    ensures r.result.Ok? <==>
              Given(bookId) && bookId.value in db.payments && db.payments[bookId.value].status == Pending
    ensures r.result.Ok? ==> r.db == Remove(db, bookId.value)
    ensures Given(bookId) && !r.result.Ok? ==> r.result == Err(CannotCancel)
  {
    if !Given(bookId) then Reply(Err(MissingFields), db)
    else
      var b := bookId.value;
      if b !in db.payments || db.payments[b].status != Pending then Reply(Err(CannotCancel), db)
      else Reply(Ok(()), Remove(db, b))
  }

  // ---------------------------------------------------------------------------
  // refund_booking

  /** refund_booking: an unpaid booking is deleted without refund; a Paid one
      credits its amount back to its user and is deleted. */
  function RefundBooking(db: Db, bookId: Option<BookId>): (r: Reply<Refund>)
    ensures r.result.Err? ==> r.db == db
    ensures r.result == Err(MissingFields) <==> !Given(bookId)
    ensures r.result == Err(PaymentNotFound) <==>
              Given(bookId) && (bookId.value !in db.payments || bookId.value !in db.bookings)
    ensures Given(bookId) && bookId.value in db.payments && bookId.value in db.bookings ==> r.result.Ok?
    ensures r.result.Ok? ==>
              var b := bookId.value;
              && b in db.payments && b in db.bookings
              && (r.result.value == CancelledUnpaid <==> db.payments[b].status != Paid)
              && (r.result.value.Refunded? ==> r.result.value.amount == db.payments[b].amount)
              && r.db.bookings == db.bookings - {b}
              && r.db.bookSeat == db.bookSeat - {b}
              && r.db.payments == db.payments - {b}
              && r.db.seats == db.seats && r.db.nextId == db.nextId
    ensures r.result == Ok(CancelledUnpaid) ==> r.db.balance == db.balance
    ensures r.result.Ok? && r.result.value.Refunded? ==>
              var u := db.bookings[bookId.value].user;
              r.db.balance == if u in db.balance then db.balance[u := db.balance[u] + r.result.value.amount] else db.balance
  {
    if !Given(bookId) then Reply(Err(MissingFields), db)
    else
      var b := bookId.value;
      if b !in db.payments || b !in db.bookings then Reply(Err(PaymentNotFound), db)
      else if db.payments[b].status != Paid then Reply(Ok(CancelledUnpaid), Remove(db, b))
      else
        var amount := db.payments[b].amount;
        var u := db.bookings[b].user;
        var credited := if u in db.balance then db.balance[u := db.balance[u] + amount] else db.balance;
        Reply(Ok(Refunded(amount)), Remove(db, b).(balance := credited))
  }
}
