/**
  Every handler keeps the database valid: book_ids are issued by the counter,
  the three tables hold the same book_ids, there is at most one book_seat row
  per (showtime, seat), payment and seat statuses agree, and no balance is
  negative.
 */
module Invariants {
  import opened Tables
  import opened Ledger
  import Steps

  /** Every price a payment can be given is non-negative. */
  lemma PriceNonNegative(db: Db, s: SeatId)
    requires NonNegative(db)
    ensures PriceOf(db.seats, s) >= 0
  {
    if FindSeat(db.seats, s).Some? {
      var row := FindSeat(db.seats, s).value;
      var i :| 0 <= i < |db.seats| && db.seats[i] == row;
    }
  }

  lemma CreatePreservesValid(db: Db, user: Option<UserId>, showtime: Option<ShowtimeId>, seat: Option<SeatId>)
    requires Valid(db)
    ensures Valid(CreateBooking(db, user, showtime, seat).db)
  {
    var r := CreateBooking(db, user, showtime, seat);
    if r.result.Ok? {
      var id, st, s := db.nextId, showtime.value, seat.value;
      var d := r.db;
      assert id !in db.bookSeat;
      assert d.bookSeat == db.bookSeat[id := SeatRow(st, s, SeatPending)];
      forall a, b | a in d.bookSeat && b in d.bookSeat && a != b
        ensures d.bookSeat[a].showtime != d.bookSeat[b].showtime || d.bookSeat[a].seat != d.bookSeat[b].seat
      {
        if a == id {
          assert b in db.bookSeat;
        } else if b == id {
          assert a in db.bookSeat;
        }
      }
      PriceNonNegative(db, s);
    }
  }

  /** The rows a bulk request adds clash neither with each other (no seat repeats)
      nor with the rows already there (no seat was taken). */
  lemma BulkRowsOnePerSeat(s0: map<BookId, SeatRow>, n: BookId, st: ShowtimeId, ids: seq<SeatId>)
    requires OneRowPerSeat(s0) && forall b :: b in s0 ==> b < n
    requires forall k :: 0 <= k < |ids| ==> !Taken(s0, st, ids[k]) && ids[k] !in ids[..k]
    ensures OneRowPerSeat(s0 + BulkSeatRows(n, st, ids))
  {
    BulkSeatRowsAt(n, st, ids);
    var d := s0 + BulkSeatRows(n, st, ids);
    var added := BulkSeatRows(n, st, ids);
    forall a, b | a in d && b in d && a != b
      ensures d[a].showtime != d[b].showtime || d[a].seat != d[b].seat
    {
      if a in added && b in added {
        var i, j := a - n, b - n;
        if i < j {
          assert ids[i] == ids[..j][i];
        } else {
          assert ids[j] == ids[..i][j];
        }
      } else if a in added {
        assert !Taken(s0, st, ids[a - n]);
      } else if b in added {
        assert !Taken(s0, st, ids[b - n]);
      }
    }
  }

  lemma BulkPreservesValid(db: Db, user: Option<UserId>, showtime: Option<ShowtimeId>, seatIds: seq<SeatId>)
    requires Valid(db)
    ensures Valid(CreateBulk(db, user, showtime, seatIds).db)
  {
    var r := CreateBulk(db, user, showtime, seatIds);
    if r.result.Ok? {
      var st := showtime.value;
      forall k | 0 <= k < |seatIds| ensures !Taken(db.bookSeat, st, seatIds[k]) && seatIds[k] !in seatIds[..k] {
        assert SeatError(db, st, seatIds, k).None?;
      }
      BulkAddsValid(db, user.value, st, seatIds);
    }
  }

  /** The three bulk tables cover the same book_ids. */
  lemma BulkSameKeys(n: BookId, u: UserId, st: ShowtimeId, seats: seq<Seat>, ids: seq<SeatId>)
    ensures BulkBookings(n, u, st, |ids|).Keys == BulkSeatRows(n, st, ids).Keys
    ensures BulkSeatRows(n, st, ids).Keys == BulkPayments(n, seats, ids).Keys
  {
    BulkBookingsAt(n, u, st, |ids|);
    BulkSeatRowsAt(n, st, ids);
    BulkPaymentsAt(n, seats, ids);
    forall b ensures b in BulkBookings(n, u, st, |ids|) <==> b in BulkSeatRows(n, st, ids) {}
    forall b ensures b in BulkSeatRows(n, st, ids) <==> b in BulkPayments(n, seats, ids) {}
  }

  /** The bulk rows agree with each other: pending seat, Pending payment, the request's showtime. */
  lemma BulkRowsAgree(db: Db, u: UserId, st: ShowtimeId, ids: seq<SeatId>)
    requires Valid(db)
    ensures var n := db.nextId;
            var d := db.(bookings := db.bookings + BulkBookings(n, u, st, |ids|),
                         bookSeat := db.bookSeat + BulkSeatRows(n, st, ids),
                         payments := db.payments + BulkPayments(n, db.seats, ids));
            SameBookIds(d) && RowsAgree(d)
  {
    var n := db.nextId;
    var addB, addS, addP := BulkBookings(n, u, st, |ids|), BulkSeatRows(n, st, ids), BulkPayments(n, db.seats, ids);
    var d := db.(bookings := db.bookings + addB, bookSeat := db.bookSeat + addS, payments := db.payments + addP);
    BulkSameKeys(n, u, st, db.seats, ids);
    assert SameBookIds(d);
    BulkBookingsAt(n, u, st, |ids|);
    BulkSeatRowsAt(n, st, ids);
    BulkPaymentsAt(n, db.seats, ids);
    forall b | b in d.bookSeat
      ensures d.bookSeat[b].showtime == d.bookings[b].showtime
      ensures d.payments[b].status == Pending <==> d.bookSeat[b].status == SeatPending
    {
      if b !in addS {
        assert b in db.bookSeat;
      }
    }
  }

  /** The bulk payments charge catalogue prices, which are non-negative. */
  lemma BulkNonNegative(db: Db, ids: seq<SeatId>)
    requires NonNegative(db)
    ensures NonNegative(db.(payments := db.payments + BulkPayments(db.nextId, db.seats, ids)))
  {
    var n := db.nextId;
    var addP := BulkPayments(n, db.seats, ids);
    BulkPaymentsAt(n, db.seats, ids);
    forall b | b in db.payments + addP ensures (db.payments + addP)[b].amount >= 0 {
      if b in addP {
        PriceNonNegative(db, ids[b - n]);
      }
    }
  }

  /** The bulk rows take the book_ids the counter then passes. */
  lemma BulkIdsIssued(db: Db, u: UserId, st: ShowtimeId, ids: seq<SeatId>)
    requires IdsIssued(db)
    ensures IdsIssued(db.(bookings := db.bookings + BulkBookings(db.nextId, u, st, |ids|), nextId := db.nextId + |ids|))
  {
    BulkBookingsAt(db.nextId, u, st, |ids|);
  }

  /** Adding the rows of a bulk request whose seats are all free and distinct keeps the database valid. */
  lemma BulkAddsValid(db: Db, u: UserId, st: ShowtimeId, ids: seq<SeatId>)
    requires Valid(db)
    requires forall k :: 0 <= k < |ids| ==> !Taken(db.bookSeat, st, ids[k]) && ids[k] !in ids[..k]
    ensures Valid(db.(bookings := db.bookings + BulkBookings(db.nextId, u, st, |ids|),
                      bookSeat := db.bookSeat + BulkSeatRows(db.nextId, st, ids),
                      payments := db.payments + BulkPayments(db.nextId, db.seats, ids),
                      nextId := db.nextId + |ids|))
  {
    BulkIdsIssued(db, u, st, ids);
    BulkRowsAgree(db, u, st, ids);
    BulkRowsOnePerSeat(db.bookSeat, db.nextId, st, ids);
    BulkNonNegative(db, ids);
  }

  lemma ConfirmPreservesValid(db: Db, bookId: Option<BookId>)
    requires Valid(db)
    ensures Valid(Confirm(db, bookId).db)
  {
  }

  lemma ConfirmAllPreservesValid(db: Db, user: Option<UserId>)
    requires Valid(db)
    ensures Valid(ConfirmAll(db, user).db)
  {
    var r := ConfirmAll(db, user);
    if r.result.Ok? {
      var pending := PendingOf(db, user.value);
      var d := r.db;
      forall b | b in d.bookSeat
        ensures d.bookSeat[b].showtime == d.bookings[b].showtime
        ensures d.payments[b].status == Pending <==> d.bookSeat[b].status == SeatPending
      {
        if b in pending {
          assert PendingFor(db, user.value, b);
        }
      }
    }
  }

  lemma CancelPreservesValid(db: Db, bookId: Option<BookId>)
    requires Valid(db)
    ensures Valid(Cancel(db, bookId).db)
  {
  }

  lemma RefundPreservesValid(db: Db, bookId: Option<BookId>)
    requires Valid(db)
    ensures Valid(RefundBooking(db, bookId).db)
  {
  }
}
