/**
  Properties that relate several handlers, or a handler and the seat map:
  what a hold adds, that a held seat shows as taken and a cancelled or refunded
  one as free again, that confirm followed by refund gives the money back, and
  the all-or-nothing shape of the bulk hold.
 */
module Lifecycle {
  import opened Tables
  import opened Ledger
  import Seats

  // ---------------------------------------------------------------------------
  // create_booking

  /** A successful hold adds one booking row, one pending seat row and one Pending
      payment of the seat's price, under a book_id no table used before; every
      existing row and every balance stays as it was. */
  lemma CreateAddsOneTriple(db: Db, u: UserId, st: ShowtimeId, s: SeatId)
    requires Valid(db)
    ensures var r := CreateBooking(db, Some(u), Some(st), Some(s));
            r.result.Ok? ==>
              var id := r.result.value.bookId;
              && id !in db.bookings && id !in db.bookSeat && id !in db.payments
              && r.db.bookings.Keys == db.bookings.Keys + {id}
              && r.db.bookSeat.Keys == db.bookSeat.Keys + {id}
              && r.db.payments.Keys == db.payments.Keys + {id}
              && r.db.bookings[id] == BookingRow(u, st)
              && r.db.bookSeat[id] == SeatRow(st, s, SeatPending)
              && r.db.payments[id] == PaymentRow(FindSeat(db.seats, s).value.price, Pending)
              && (forall b :: b in db.bookings ==> r.db.bookings[b] == db.bookings[b])
              && (forall b :: b in db.bookSeat ==> r.db.bookSeat[b] == db.bookSeat[b])
              && (forall b :: b in db.payments ==> r.db.payments[b] == db.payments[b])
              && r.db.balance == db.balance
  {
  }

  /** After a successful hold of s for st, the seat map shows s as not available for st. */
  lemma CreateMakesUnavailable(db: Db, u: UserId, st: ShowtimeId, s: SeatId)
    ensures var r := CreateBooking(db, Some(u), Some(st), Some(s));
            r.result.Ok? ==> !Seats.Available(r.db.bookSeat, Some(st), s)
  {
    var r := CreateBooking(db, Some(u), Some(st), Some(s));
    if r.result.Ok? {
      var id := db.nextId;
      assert r.db.bookSeat[id] == SeatRow(st, s, SeatPending);
    }
  }

  /** The same hold a second time is refused as taken and changes nothing. */
  lemma CreateTwiceTaken(db: Db, u: UserId, u2: UserId, st: ShowtimeId, s: SeatId)
    ensures var r := CreateBooking(db, Some(u), Some(st), Some(s));
            r.result.Ok? ==>
              var r2 := CreateBooking(r.db, Some(u2), Some(st), Some(s));
              r2.result == Err(SeatTaken(s)) && r2.db == r.db
  {
    CreateMakesUnavailable(db, u, st, s);
  }

  // ---------------------------------------------------------------------------
  // cancel_booking and refund_booking free the seat

  /** Deleting the rows of b makes b's seat available again for b's showtime:
      with one seat row per (showtime, seat), no other row names it. */
  lemma RemoveFreesSeat(db: Db, b: BookId)
    requires OneRowPerSeat(db.bookSeat)
    requires b in db.bookSeat
    ensures Seats.Available(Remove(db, b).bookSeat, Some(db.bookSeat[b].showtime), db.bookSeat[b].seat)
  {
    var row := db.bookSeat[b];
    var after := Remove(db, b).bookSeat;
    forall c | c in after ensures after[c].showtime != row.showtime || after[c].seat != row.seat {
      assert c in db.bookSeat && c != b;
    }
  }

  /** Cancelling a held seat makes it available again. */
  lemma CancelFreesSeat(db: Db, b: BookId)
    requires Valid(db)
    requires b in db.bookSeat
    ensures var r := Cancel(db, Some(b));
            r.result.Ok? ==> Seats.Available(r.db.bookSeat, Some(db.bookSeat[b].showtime), db.bookSeat[b].seat)
  {
    if Cancel(db, Some(b)).result.Ok? {
      RemoveFreesSeat(db, b);
    }
  }

  /** A refund, of a paid or an unpaid booking, makes its seat available again. */
  lemma RefundFreesSeat(db: Db, b: BookId)
    requires Valid(db)
    requires b in db.bookSeat
    ensures var r := RefundBooking(db, Some(b));
            r.result.Ok? ==> Seats.Available(r.db.bookSeat, Some(db.bookSeat[b].showtime), db.bookSeat[b].seat)
  {
    if RefundBooking(db, Some(b)).result.Ok? {
      RemoveFreesSeat(db, b);
    }
  }

  /** A hold cancelled straight away leaves the database as it was, except that
      the counter has moved past the book_id it used. */
  lemma CreateThenCancel(db: Db, u: UserId, st: ShowtimeId, s: SeatId)
    requires Valid(db)
    ensures var r := CreateBooking(db, Some(u), Some(st), Some(s));
            r.result.Ok? ==>
              Cancel(r.db, Some(r.result.value.bookId)) == Reply(Ok(()), db.(nextId := db.nextId + 1))
  {
    var r := CreateBooking(db, Some(u), Some(st), Some(s));
    if r.result.Ok? {
      var id := db.nextId;
      assert id !in db.bookings && id !in db.bookSeat && id !in db.payments;
      var d := Cancel(r.db, Some(id)).db;
      assert d.bookings == db.bookings;
      assert d.bookSeat == db.bookSeat;
      assert d.payments == db.payments;
    }
  }

  /** A second cancel of the same book_id is refused and changes nothing. */
  lemma CancelTwice(db: Db, b: BookId)
    ensures var r := Cancel(db, Some(b));
            r.result.Ok? ==> Cancel(r.db, Some(b)) == Reply(Err(CannotCancel), r.db)
  {
  }

  // ---------------------------------------------------------------------------
  // confirm_booking

  /** A confirmation touches only its own booking and its own user: the payment
      becomes Paid, the seat row booked, and the user is debited the amount. */
  lemma ConfirmTouchesOneBooking(db: Db, b: BookId)
    ensures var r := Confirm(db, Some(b));
            r.result.Ok? ==>
              var u := db.bookings[b].user;
              && r.db.payments[b] == PaymentRow(db.payments[b].amount, Paid)
              && (b in db.bookSeat ==> r.db.bookSeat[b] == db.bookSeat[b].(status := SeatBooked))
              && r.db.bookings == db.bookings && r.db.nextId == db.nextId
              && r.db.payments.Keys == db.payments.Keys && r.db.bookSeat.Keys == db.bookSeat.Keys
              && (forall c :: c in db.payments && c != b ==> r.db.payments[c] == db.payments[c])
              && (forall c :: c in db.bookSeat && c != b ==> r.db.bookSeat[c] == db.bookSeat[c])
              && r.db.balance[u] == db.balance[u] - db.payments[b].amount
              && (forall v :: v in db.balance && v != u ==> r.db.balance[v] == db.balance[v])
  {
  }

  /** Confirming keeps the seat taken: only the status of its row changes. */
  lemma ConfirmKeepsSeatTaken(db: Db, b: BookId, st: ShowtimeId, s: SeatId)
    ensures var r := Confirm(db, Some(b));
            Seats.Available(r.db.bookSeat, Some(st), s) == Seats.Available(db.bookSeat, Some(st), s)
  {
    var r := Confirm(db, Some(b));
    if r.result.Ok? {
      Seats.StatusIrrelevant(db.bookSeat, r.db.bookSeat, Some(st), s);
    }
  }

  /** Confirm followed by refund gives the user's balance back and deletes the
      booking: the database is the one before the confirmation with b's rows gone. */
  lemma ConfirmThenRefund(db: Db, b: BookId)
    requires Valid(db)
    ensures var r := Confirm(db, Some(b));
            r.result.Ok? ==>
              RefundBooking(r.db, Some(b)) == Reply(Ok(Refunded(db.payments[b].amount)), Remove(db, b))
  {
    var r := Confirm(db, Some(b));
    if r.result.Ok? {
      var u, amount := db.bookings[b].user, db.payments[b].amount;
      var r2 := RefundBooking(r.db, Some(b));
      assert r.db.payments[b] == PaymentRow(amount, Paid);
      assert r2.db.balance == db.balance[u := db.balance[u] - amount][u := db.balance[u] - amount + amount];
      assert r2.db.balance == db.balance;
      assert r2.db.payments == db.payments - {b};
      assert r2.db.bookSeat == db.bookSeat - {b};
    }
  }

  // ---------------------------------------------------------------------------
  // confirm_all_bookings

  /** Confirm-all pays exactly u's Pending payments: each of them becomes Paid with
      its seat row booked, every other row (other users', already paid) is kept,
      and only u's balance changes. Afterwards u has nothing left to pay. */
  lemma ConfirmAllPaysExactlyPending(db: Db, u: UserId)
    requires Valid(db)
    requires u != 0
    ensures var r := ConfirmAll(db, Some(u));
            r.result.Ok? ==>
              && r.db.bookings == db.bookings && r.db.nextId == db.nextId
              && r.db.payments.Keys == db.payments.Keys && r.db.bookSeat.Keys == db.bookSeat.Keys
              && (forall b :: b in db.payments ==>
                    r.db.payments[b] == if PendingFor(db, u, b) then db.payments[b].(status := Paid) else db.payments[b])
              && (forall b :: b in db.bookSeat ==>
                    r.db.bookSeat[b] == if PendingFor(db, u, b) then db.bookSeat[b].(status := SeatBooked) else db.bookSeat[b])
              && (forall v :: v in db.balance && v != u ==> r.db.balance[v] == db.balance[v])
              && (forall b :: !PendingFor(r.db, u, b))
  {
    var r := ConfirmAll(db, Some(u));
    if r.result.Ok? {
      var pending := PendingOf(db, u);
      forall b ensures !PendingFor(r.db, u, b) {
        if PendingFor(db, u, b) {
          assert b in pending;
        }
      }
    }
  }

  // ---------------------------------------------------------------------------
  // create_booking_bulk

  /** A request naming the same seat twice always fails: the second occurrence
      sees the row the first one inserted. */
  lemma BulkRepeatFails(db: Db, u: Option<UserId>, st: Option<ShowtimeId>, ids: seq<SeatId>, i: nat, j: nat)
    requires i < j < |ids| && ids[i] == ids[j]
    ensures CreateBulk(db, u, st, ids).result.Err?
    ensures CreateBulk(db, u, st, ids).db == db
  {
    if Given(u) && Given(st) {
      assert ids[j] == ids[..j][i];
      assert SeatError(db, st.value, ids, j).Some?;
    }
  }

  /** A bulk request containing a seat already taken for the showtime fails and changes nothing. */
  lemma BulkTakenFails(db: Db, u: Option<UserId>, st: ShowtimeId, ids: seq<SeatId>, k: nat)
    requires k < |ids| && Taken(db.bookSeat, st, ids[k])
    ensures CreateBulk(db, u, Some(st), ids).result.Err?
    ensures CreateBulk(db, u, Some(st), ids).db == db
  {
    if Given(u) && st != 0 {
      assert SeatError(db, st, ids, k).Some?;
    }
  }

  /** d holds, for the k-th requested seat, a booking row, a pending seat row and a
      Pending payment of that seat's price under book_id nextId + k, which no
      table of db used. */
  ghost predicate TripleAdded(db: Db, d: Db, u: UserId, st: ShowtimeId, ids: seq<SeatId>, k: nat)
    requires k < |ids|
  {
    var b := db.nextId + k;
    && b !in db.bookings && b !in db.bookSeat && b !in db.payments
    && b in d.bookings && d.bookings[b] == BookingRow(u, st)
    && b in d.bookSeat && d.bookSeat[b] == SeatRow(st, ids[k], SeatPending)
    && b in d.payments && FindSeat(db.seats, ids[k]).Some?
    && d.payments[b] == PaymentRow(FindSeat(db.seats, ids[k]).value.price, Pending)
  }

  /** A successful bulk request adds, for the k-th listed seat, one booking row,
      one pending seat row and one Pending payment of that seat's price, under
      book_id nextId + k, which no table used before. */
  lemma BulkAddsTriples(db: Db, u: UserId, st: ShowtimeId, ids: seq<SeatId>)
    requires Valid(db)
    ensures var r := CreateBulk(db, Some(u), Some(st), ids);
            r.result.Ok? ==> forall k :: 0 <= k < |ids| ==> TripleAdded(db, r.db, u, st, ids, k)
  {
    var r := CreateBulk(db, Some(u), Some(st), ids);
    if r.result.Ok? {
      BulkCommitted(db, u, st, ids);
      forall k | 0 <= k < |ids| ensures TripleAdded(db, r.db, u, st, ids, k) {
        TripleAt(db, u, st, ids, k);
      }
    }
  }

  /** The k-th triple of a committed bulk request. */
  lemma TripleAt(db: Db, u: UserId, st: ShowtimeId, ids: seq<SeatId>, k: nat)
    requires k < |ids| && AllKnown(db.seats, ids)
    requires Valid(db)
    ensures var n := db.nextId;
            TripleAdded(db, db.(bookings := db.bookings + BulkBookings(n, u, st, |ids|),
                                bookSeat := db.bookSeat + BulkSeatRows(n, st, ids),
                                payments := db.payments + BulkPayments(n, db.seats, ids),
                                nextId := n + |ids|), u, st, ids, k)
  {
    var n := db.nextId;
    BookingsAdded(db.bookings, n, u, st, |ids|);
    SeatRowsAdded(db.bookSeat, n, st, ids);
    PaymentsAdded(db.payments, n, db.seats, ids);
    var b := n + k;
    assert b - n == k;
  }

  /** A successful bulk request adds no book_id outside nextId .. nextId + |ids| - 1,
      and every existing row and every balance stays as it was. */
  lemma BulkKeepsOtherRows(db: Db, u: UserId, st: ShowtimeId, ids: seq<SeatId>)
    requires Valid(db)
    ensures var r := CreateBulk(db, Some(u), Some(st), ids);
            var n := db.nextId;
            r.result.Ok? ==>
              && (forall b :: b in r.db.bookings <==> b in db.bookings || n <= b < n + |ids|)
              && (forall b :: b in r.db.bookSeat <==> b in db.bookSeat || n <= b < n + |ids|)
              && (forall b :: b in r.db.payments <==> b in db.payments || n <= b < n + |ids|)
              && (forall b :: b in db.bookings ==> r.db.bookings[b] == db.bookings[b])
              && (forall b :: b in db.bookSeat ==> r.db.bookSeat[b] == db.bookSeat[b])
              && (forall b :: b in db.payments ==> r.db.payments[b] == db.payments[b])
              && r.db.balance == db.balance
  {
    var r := CreateBulk(db, Some(u), Some(st), ids);
    var n := db.nextId;
    if r.result.Ok? {
      BulkCommitted(db, u, st, ids);
      BookingsAdded(db.bookings, n, u, st, |ids|);
      SeatRowsAdded(db.bookSeat, n, st, ids);
      PaymentsAdded(db.payments, n, db.seats, ids);
    }
  }

  /** The database a successful bulk request commits. */
  lemma BulkCommitted(db: Db, u: UserId, st: ShowtimeId, ids: seq<SeatId>)
    ensures var r := CreateBulk(db, Some(u), Some(st), ids);
            var n := db.nextId;
            r.result.Ok? ==>
              && AllKnown(db.seats, ids)
              && r.db == db.(bookings := db.bookings + BulkBookings(n, u, st, |ids|),
                             bookSeat := db.bookSeat + BulkSeatRows(n, st, ids),
                             payments := db.payments + BulkPayments(n, db.seats, ids),
                             nextId := n + |ids|)
  {
    if CreateBulk(db, Some(u), Some(st), ids).result.Ok? {
      assert FirstError(db, st, ids, 0).None?;
    }
  }

  /** The bulk booking rows go to fresh book_ids next to the existing ones. */
  lemma BookingsAdded(m: map<BookId, BookingRow>, n: BookId, u: UserId, st: ShowtimeId, count: nat)
    requires forall b :: b in m ==> b < n
    ensures forall b :: n <= b < n + count ==>
              b !in m && b in m + BulkBookings(n, u, st, count) &&
              (m + BulkBookings(n, u, st, count))[b] == BookingRow(u, st)
    ensures forall b :: b in m + BulkBookings(n, u, st, count) <==> b in m || n <= b < n + count
    ensures forall b :: b in m ==> (m + BulkBookings(n, u, st, count))[b] == m[b]
  {
    BulkBookingsAt(n, u, st, count);
  }

  /** The bulk seat rows go to fresh book_ids next to the existing ones. */
  lemma SeatRowsAdded(m: map<BookId, SeatRow>, n: BookId, st: ShowtimeId, ids: seq<SeatId>)
    requires forall b :: b in m ==> b < n
    ensures forall b :: n <= b < n + |ids| ==>
              b !in m && b in m + BulkSeatRows(n, st, ids) &&
              (m + BulkSeatRows(n, st, ids))[b] == SeatRow(st, ids[b - n], SeatPending)
    ensures forall b :: b in m + BulkSeatRows(n, st, ids) <==> b in m || n <= b < n + |ids|
    ensures forall b :: b in m ==> (m + BulkSeatRows(n, st, ids))[b] == m[b]
  {
    BulkSeatRowsAt(n, st, ids);
  }

  /** The bulk payments go to fresh book_ids next to the existing ones. */
  lemma PaymentsAdded(m: map<BookId, PaymentRow>, n: BookId, seats: seq<Seat>, ids: seq<SeatId>)
    requires forall b :: b in m ==> b < n
    ensures forall b :: n <= b < n + |ids| ==>
              b !in m && b in m + BulkPayments(n, seats, ids) &&
              (m + BulkPayments(n, seats, ids))[b] == PaymentRow(PriceOf(seats, ids[b - n]), Pending)
    ensures forall b :: b in m + BulkPayments(n, seats, ids) <==> b in m || n <= b < n + |ids|
    ensures forall b :: b in m ==> (m + BulkPayments(n, seats, ids))[b] == m[b]
  {
    BulkPaymentsAt(n, seats, ids);
  }

  /** A successful bulk request holds every listed seat: each one shows as not
      available for the showtime afterwards, and the k-th item carries book_id
      nextId + k and the k-th seat. */
  lemma BulkHoldsEverySeat(db: Db, u: UserId, st: ShowtimeId, ids: seq<SeatId>)
    ensures var r := CreateBulk(db, Some(u), Some(st), ids);
            r.result.Ok? ==>
              && |r.result.value| == |ids|
              && (forall k :: 0 <= k < |ids| ==>
                    r.result.value[k].bookId == db.nextId + k && r.result.value[k].seat == ids[k])
              && (forall k :: 0 <= k < |ids| ==> !Seats.Available(r.db.bookSeat, Some(st), ids[k]))
              && r.db.nextId == db.nextId + |ids|
  {
    var r := CreateBulk(db, Some(u), Some(st), ids);
    if r.result.Ok? {
      var n := db.nextId;
      BulkSeatRowsAt(n, st, ids);
      forall k | 0 <= k < |ids| ensures !Seats.Available(r.db.bookSeat, Some(st), ids[k]) {
        assert n + k in BulkSeatRows(n, st, ids);
        assert r.db.bookSeat[n + k] == SeatRow(st, ids[k], SeatPending);
      }
    }
  }

  /** A bulk request for one seat behaves as the single-seat handler on that seat
      (for a user and showtime the bulk handler accepts). */
  lemma BulkOfOne(db: Db, u: UserId, st: ShowtimeId, s: SeatId)
    requires u != 0 && st != 0
    ensures var single := CreateBooking(db, Some(u), Some(st), Some(s));
            var bulk := CreateBulk(db, Some(u), Some(st), [s]);
            && bulk.db == single.db
            && (bulk.result.Ok? <==> single.result.Ok?)
            && (bulk.result.Ok? ==> bulk.result.value == [single.result.value])
            && (bulk.result.Err? ==> bulk.result.error == single.result.error)
  {
    var ids := [s];
    assert ids[..0] == [] && ids[..|ids| - 1] == [];
    var n := db.nextId;
    if FindSeat(db.seats, s).None? {
      assert SeatError(db, st, ids, 0) == Some(SeatNotFound(s));
    } else if Taken(db.bookSeat, st, s) {
      assert SeatError(db, st, ids, 0) == Some(SeatTaken(s));
    } else {
      assert FirstError(db, st, ids, 0) == None;
      BulkOfOneRows(db, u, st, s);
    }
  }

  /** The rows and the item list of a one-seat request. */
  lemma BulkOfOneRows(db: Db, u: UserId, st: ShowtimeId, s: SeatId)
    ensures var n := db.nextId;
            && BulkBookings(n, u, st, 1) == map[n := BookingRow(u, st)]
            && BulkSeatRows(n, st, [s]) == map[n := SeatRow(st, s, SeatPending)]
            && BulkPayments(n, db.seats, [s]) == map[n := PaymentRow(PriceOf(db.seats, s), Pending)]
            && BulkItems(n, db.seats, [s]) == [Item(n, s, PriceOf(db.seats, s))]
  {
    assert [s][..0] == [];
  }
}
