/**
  The booking handlers as they run against the database: each method reads and
  writes the tables statement by statement, and either commits or rolls back.
  Each is proved to end in exactly the reply and state that Ledger prescribes,
  and to keep the database valid.
 */
module Booking {
  import opened Tables
  import opened Ledger
  import Steps
  import Invariants

  class BookingDb {
    const seats: seq<Seat>
    var bookings: map<BookId, BookingRow>
    var bookSeat: map<BookId, SeatRow>
    var payments: map<BookId, PaymentRow>
    var balance: map<UserId, int>
    var nextId: BookId

    function State(): Db
      reads this
    {
      Db(seats, bookings, bookSeat, payments, balance, nextId)
    }

    ghost predicate Valid()
      reads this
    {
      Tables.Valid(State())
    }

    /** A database with its seats catalogue and users, and no booking yet. */
    constructor (seats: seq<Seat>, balance: map<UserId, int>)
      requires forall i :: 0 <= i < |seats| ==> seats[i].price >= 0
      requires forall u :: u in balance ==> balance[u] >= 0
      ensures Valid()
      ensures State() == Db(seats, map[], map[], map[], balance, 1)
    {
      this.seats := seats;
      this.balance := balance;
      bookings, bookSeat, payments := map[], map[], map[];
      nextId := 1;
    }

    /** The three inserts of a hold under the next book_id, which the counter then passes. */
    method Insert(u: UserId, st: ShowtimeId, seat: Seat) returns (item: Item)
      modifies this
      ensures item == Item(old(nextId), seat.id, seat.price) && nextId == old(nextId) + 1
      ensures bookings == old(bookings)[old(nextId) := BookingRow(u, st)]
      ensures bookSeat == old(bookSeat)[old(nextId) := SeatRow(st, seat.id, SeatPending)]
      ensures payments == old(payments)[old(nextId) := PaymentRow(seat.price, Pending)]
      ensures balance == old(balance)
    {
      var id := nextId;
      nextId := nextId + 1;
      bookings := bookings[id := BookingRow(u, st)];
      bookSeat := bookSeat[id := SeatRow(st, seat.id, SeatPending)];
      payments := payments[id := PaymentRow(seat.price, Pending)];
      item := Item(id, seat.id, seat.price);
    }

    /** create_booking (backend/booking.py:8-77). */
    method CreateBooking(user: Option<UserId>, showtime: Option<ShowtimeId>, seat: Option<SeatId>)
      returns (r: Result<Item>)
      requires Valid()
      modifies this
      ensures Valid()
      ensures Reply(r, State()) == Ledger.CreateBooking(old(State()), user, showtime, seat)
    {
      Invariants.CreatePreservesValid(State(), user, showtime, seat);
      if user.None? || showtime.None? || seat.None? {
        return Err(MissingFields);
      }
      var st, s := showtime.value, seat.value;
      var row := FindSeat(seats, s);
      if row.None? {
        return Err(SeatNotFound(s));
      }
      if Taken(bookSeat, st, s) {
        return Err(SeatTaken(s));
      }
      var item := Insert(user.value, st, row.value);
      r := Ok(item);
    }

    /** create_booking_bulk (backend/booking.py:82-160): one hold per requested seat,
        in request order; the first unknown or taken seat rolls everything back. */
    method CreateBulk(user: Option<UserId>, showtime: Option<ShowtimeId>, seatIds: seq<SeatId>)
      returns (r: Result<seq<Item>>)
      requires Valid()
      modifies this
      ensures Valid()
      ensures Reply(r, State()) == Ledger.CreateBulk(old(State()), user, showtime, seatIds)
    {
      if !Given(user) || !Given(showtime) || seatIds == [] {
        return Err(MissingFields);
      }
      ghost var after := Ledger.CreateBulk(State(), user, showtime, seatIds);
      var failed, heldBookings, heldSeats, heldPayments, created := Stage(user.value, showtime.value, seatIds);
      if failed.Some? {
        return Err(failed.value);
      }
      ghost var db0 := State();
      assert after == Reply(Ok(created), db0.(bookings := heldBookings, bookSeat := heldSeats,
                                              payments := heldPayments, nextId := nextId + |seatIds|));
      Invariants.BulkPreservesValid(db0, user, showtime, seatIds);
      bookings, bookSeat, payments, nextId := heldBookings, heldSeats, heldPayments, nextId + |seatIds|;
      r := Ok(created);
      assert State() == after.db;
    }

    /** The loop of create_booking_bulk, inside its transaction: the k-th seat is
        checked against the committed rows and the rows this request already
        inserted, then held under book_id nextId + k. The caller commits the
        staged tables when every seat passes; on the first failure they are
        discarded, the counter included. */
    method Stage(u: UserId, st: ShowtimeId, seatIds: seq<SeatId>)
      returns (failed: Option<Error>, heldBookings: map<BookId, BookingRow>, heldSeats: map<BookId, SeatRow>,
               heldPayments: map<BookId, PaymentRow>, created: seq<Item>)
      requires forall b :: b in bookSeat ==> b < nextId
      ensures failed == FirstError(State(), st, seatIds, 0)
      ensures failed.None? ==>
                && heldBookings == bookings + BulkBookings(nextId, u, st, |seatIds|)
                && heldSeats == bookSeat + BulkSeatRows(nextId, st, seatIds)
                && heldPayments == payments + BulkPayments(nextId, seats, seatIds)
                && created == BulkItems(nextId, seats, seatIds)
    {
      var n0 := nextId;
      heldBookings, heldSeats, heldPayments := bookings, bookSeat, payments;
      created := [];
      var k := 0;
      assert seatIds[..|seatIds|] == seatIds;
      while k < |seatIds|
        invariant 0 <= k <= |seatIds|
        invariant FirstError(State(), st, seatIds, 0) == FirstError(State(), st, seatIds, k)
        invariant heldBookings == bookings + BulkBookings(n0, u, st, k)
        invariant heldSeats == bookSeat + BulkSeatRows(n0, st, seatIds[..k])
        invariant heldPayments == payments + BulkPayments(n0, seats, seatIds[..k])
        invariant created == BulkItems(n0, seats, seatIds[..k])
      {
        var s := seatIds[k];
        var row := FindSeat(seats, s);
        if row.None? {
          return Some(SeatNotFound(s)), heldBookings, heldSeats, heldPayments, created;
        }
        Steps.TakenMidBulk(bookSeat, n0, st, seatIds, k);
        if Taken(heldSeats, st, s) {
          return Some(SeatTaken(s)), heldBookings, heldSeats, heldPayments, created;
        }
        Steps.BookingsGrow(bookings, n0, u, st, k);
        Steps.SeatRowsGrow(bookSeat, n0, st, seatIds, k);
        Steps.PaymentsGrow(payments, n0, seats, seatIds, k);
        Steps.BulkItemsStep(n0, seats, seatIds, k);
        var id := n0 + k;
        heldBookings := heldBookings[id := BookingRow(u, st)];
        heldSeats := heldSeats[id := SeatRow(st, s, SeatPending)];
        heldPayments := heldPayments[id := PaymentRow(row.value.price, Pending)];
        created := created + [Item(id, s, row.value.price)];
        k := k + 1;
      }
      failed := None;
    }

    /** confirm_booking (backend/booking.py:165-226). */
    method Confirm(bookId: Option<BookId>) returns (r: Result<()>)
      requires Valid()
      modifies this
      ensures Valid()
      ensures Reply(r, State()) == Ledger.Confirm(old(State()), bookId)
    {
      Invariants.ConfirmPreservesValid(State(), bookId);
      if !Given(bookId) {
        return Err(MissingFields);
      }
      var b := bookId.value;
      if b !in payments || payments[b].status != Pending {
        return Err(NoPending);
      }
      var amount := payments[b].amount;
      if b !in bookings {
        return Err(BookingNotFound);
      }
      var u := bookings[b].user;
      if u !in balance || balance[u] < amount {
        return Err(InsufficientBalance);
      }
      balance := balance[u := balance[u] - amount];
      payments := SetPaid(payments, b);
      bookSeat := SetBooked(bookSeat, b);
      r := Ok(());
    }

    /** confirm_all_bookings (backend/booking.py:231-282): one debit of the sum,
        then every pending booking of the user is paid. */
    method ConfirmAll(user: Option<UserId>) returns (r: Result<()>)
      requires Valid()
      modifies this
      ensures Valid()
      ensures Reply(r, State()) == Ledger.ConfirmAll(old(State()), user)
    {
      Invariants.ConfirmAllPreservesValid(State(), user);
      if !Given(user) {
        return Err(MissingFields);
      }
      ghost var db0 := State();
      var u := user.value;
      var pending := PendingOf(State(), u);
      if pending == [] {
        return Err(NoPending);
      }
      var total := Total(payments, pending);
      if u !in balance || balance[u] < total {
        return Err(InsufficientBalance);
      }
      balance := balance[u := balance[u] - total];
      MarkAll(pending);
      r := Ok(());
    }

    /** The loop of confirm_all_bookings: each listed booking's payment becomes
        paid and its seat booked, one booking per iteration. */
    method MarkAll(ids: seq<BookId>)
      modifies this
      ensures payments == MarkPaid(old(payments), ids)
      ensures bookSeat == MarkBooked(old(bookSeat), ids)
      ensures bookings == old(bookings) && balance == old(balance) && nextId == old(nextId)
    {
      ghost var p0, s0 := payments, bookSeat;
      for k := 0 to |ids|
        invariant bookings == old(bookings) && balance == old(balance) && nextId == old(nextId)
        invariant payments == MarkPaid(p0, ids[..k])
        invariant bookSeat == MarkBooked(s0, ids[..k])
      {
        Steps.MarkPaidStep(p0, ids, k);
        Steps.MarkBookedStep(s0, ids, k);
        payments := SetPaid(payments, ids[k]);
        bookSeat := SetBooked(bookSeat, ids[k]);
      }
      assert ids[..|ids|] == ids;
    }

    /** cancel_booking (backend/booking.py:287-316). */
    method Cancel(bookId: Option<BookId>) returns (r: Result<()>)
      requires Valid()
      modifies this
      ensures Valid()
      ensures Reply(r, State()) == Ledger.Cancel(old(State()), bookId)
    {
      Invariants.CancelPreservesValid(State(), bookId);
      if !Given(bookId) {
        return Err(MissingFields);
      }
      var b := bookId.value;
      if b !in payments || payments[b].status != Pending {
        return Err(CannotCancel);
      }
      bookSeat := bookSeat - {b};
      payments := payments - {b};
      bookings := bookings - {b};
      r := Ok(());
    }

    /** refund_booking (backend/booking.py:380-431). */
    method RefundBooking(bookId: Option<BookId>) returns (r: Result<Refund>)
      requires Valid()
      modifies this
      ensures Valid()
      ensures Reply(r, State()) == Ledger.RefundBooking(old(State()), bookId)
    {
      Invariants.RefundPreservesValid(State(), bookId);
      if !Given(bookId) {
        return Err(MissingFields);
      }
      var b := bookId.value;
      if b !in payments || b !in bookings {
        return Err(PaymentNotFound);
      }
      if payments[b].status != Paid {
        bookSeat := bookSeat - {b};
        payments := payments - {b};
        bookings := bookings - {b};
        return Ok(CancelledUnpaid);
      }
      var amount := payments[b].amount;
      var u := bookings[b].user;
      if u in balance {
        balance := balance[u := balance[u] + amount];
      }
      bookSeat := bookSeat - {b};
      payments := payments - {b};
      bookings := bookings - {b};
      r := Ok(Refunded(amount));
    }
  }
}
