/**
  The relational state the booking handlers work on: the seats catalogue, the
  booking, book_seat and payments tables (all keyed by book_id), the users'
  balances, and the auto-increment counter that hands out book_ids.
  Money is an integer count of the smallest currency unit.
 */
module Tables {

  datatype Option<T> = None | Some(value: T)

  type UserId = int
  type ShowtimeId = int
  type SeatId = int
  type BookId = int

  /** A row of the seats table: seat_id, the printed seat name (the `seat` column) and its price. */
  datatype Seat = Seat(id: SeatId, name: string, price: int)

  /** The status column of book_seat ('pending' or 'booked'). */
  datatype SeatStatus = SeatPending | SeatBooked

  /** The status column of payments ('Pending' or 'Paid'). */
  datatype PayStatus = Pending | Paid

  datatype BookingRow = BookingRow(user: UserId, showtime: ShowtimeId)
  datatype SeatRow = SeatRow(showtime: ShowtimeId, seat: SeatId, status: SeatStatus)
  datatype PaymentRow = PaymentRow(amount: int, status: PayStatus)

  /** One snapshot of the database. */
  datatype Db = Db(
    seats: seq<Seat>,
    bookings: map<BookId, BookingRow>,
    bookSeat: map<BookId, SeatRow>,
    payments: map<BookId, PaymentRow>,
    balance: map<UserId, int>,
    nextId: BookId)

  /** A request field read with Python truthiness: absent, null and 0 are all rejected. */
  predicate Given(x: Option<int>): (g: bool)
    ensures x.None? ==> !g
    ensures x == Some(0) ==> !g
    ensures x.Some? && x.value != 0 ==> g
  {
    x.Some? && x.value != 0
  }

  /** `SELECT ... FROM seats WHERE seat_id = id`: the first row with that seat_id. */
  function FindSeat(seats: seq<Seat>, id: SeatId): (r: Option<Seat>)
    ensures r.None? <==> forall i :: 0 <= i < |seats| ==> seats[i].id != id
    ensures r.Some? ==> r.value in seats && r.value.id == id
  {
    if seats == [] then None
    else if seats[0].id == id then Some(seats[0])
    else FindSeat(seats[1..], id)
  }

  /** The row found is the first one with that seat_id. */
  lemma {:induction false} FindSeatFirst(seats: seq<Seat>, id: SeatId)
    requires FindSeat(seats, id).Some?
    ensures exists i :: 0 <= i < |seats| && seats[i] == FindSeat(seats, id).value &&
                        forall j :: 0 <= j < i ==> seats[j].id != id
  {
    if seats[0].id != id {
      FindSeatFirst(seats[1..], id);
      var i :| 0 <= i < |seats| - 1 && seats[1..][i] == FindSeat(seats, id).value &&
               forall j :: 0 <= j < i ==> seats[1..][j].id != id;
      assert seats[i + 1] == seats[1..][i];
      forall j | 0 <= j < i + 1 ensures seats[j].id != id {
        if j > 0 { assert seats[j] == seats[1..][j - 1]; }
      }
    } else {
      assert seats[0] == FindSeat(seats, id).value;
    }
  }

  /** Whether any book_seat row, pending or booked, exists for (showtime, seat). */
  predicate Taken(bookSeat: map<BookId, SeatRow>, st: ShowtimeId, s: SeatId): (t: bool)
    ensures forall b :: b in bookSeat && bookSeat[b] == SeatRow(st, s, SeatPending) ==> t
    ensures forall b :: b in bookSeat && bookSeat[b] == SeatRow(st, s, SeatBooked) ==> t
    ensures t ==> exists b :: b in bookSeat && bookSeat[b].showtime == st && bookSeat[b].seat == s
  {
    exists b :: b in bookSeat && bookSeat[b].showtime == st && bookSeat[b].seat == s
  }

  /** The rows of book_id b removed from booking, book_seat and payments. */
  function Remove(db: Db, b: BookId): (r: Db)
    ensures b !in r.bookings && b !in r.bookSeat && b !in r.payments
    ensures r.bookings.Keys == db.bookings.Keys - {b}
    ensures r.bookSeat.Keys == db.bookSeat.Keys - {b}
    ensures r.payments.Keys == db.payments.Keys - {b}
    ensures forall c :: c in r.bookings ==> r.bookings[c] == db.bookings[c]
    ensures forall c :: c in r.bookSeat ==> r.bookSeat[c] == db.bookSeat[c]
    ensures forall c :: c in r.payments ==> r.payments[c] == db.payments[c]
    ensures r.seats == db.seats && r.balance == db.balance && r.nextId == db.nextId
  {
    db.(bookSeat := db.bookSeat - {b}, payments := db.payments - {b}, bookings := db.bookings - {b})
  }

  // ---------------------------------------------------------------------------
  // The invariant every handler preserves

  /** book_ids come from the auto-increment counter, which starts at 1. */
  ghost predicate IdsIssued(db: Db) {
    && db.nextId >= 1
    && forall b :: b in db.bookings ==> 1 <= b < db.nextId
  }

  /** Every booking has exactly one book_seat row and one payment. */
  ghost predicate SameBookIds(db: Db) {
    db.bookings.Keys == db.bookSeat.Keys && db.bookSeat.Keys == db.payments.Keys
  }

  /** No double booking: at most one book_seat row per (showtime, seat). */
  ghost predicate OneRowPerSeat(bookSeat: map<BookId, SeatRow>) {
    forall a, b :: a in bookSeat && b in bookSeat && a != b ==>
      bookSeat[a].showtime != bookSeat[b].showtime || bookSeat[a].seat != bookSeat[b].seat
  }

  /** The seat row is for the booking's showtime, and a payment is Pending exactly when
      its seat row is pending (so Paid exactly when it is booked). */
  ghost predicate RowsAgree(db: Db)
    requires SameBookIds(db)
  {
    forall b :: b in db.bookSeat ==>
      && db.bookSeat[b].showtime == db.bookings[b].showtime
      && (db.payments[b].status == Pending <==> db.bookSeat[b].status == SeatPending)
  }

  /** Prices and payment amounts are non-negative, and no balance is negative. */
  ghost predicate NonNegative(db: Db) {
    && (forall i :: 0 <= i < |db.seats| ==> db.seats[i].price >= 0)
    && (forall b :: b in db.payments ==> db.payments[b].amount >= 0)
    && (forall u :: u in db.balance ==> db.balance[u] >= 0)
  }

  ghost predicate Valid(db: Db) {
    && IdsIssued(db)
    && SameBookIds(db)
    && OneRowPerSeat(db.bookSeat)
    && RowsAgree(db)
    && NonNegative(db)
  }
}
