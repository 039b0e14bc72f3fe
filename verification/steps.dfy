/**
  How the two looping handlers reach the closed forms of Ledger one row at a
  time: create_booking_bulk inserts the k-th triple under book_id n + k, and
  confirm_all_bookings marks one pending booking per iteration.
 */
module Steps {
  import opened Tables
  import opened Ledger

  lemma BulkSeatRowsStep(n: BookId, st: ShowtimeId, ids: seq<SeatId>, k: nat)
    requires k < |ids|
    ensures BulkSeatRows(n, st, ids[..k + 1]) == BulkSeatRows(n, st, ids[..k])[n + k := SeatRow(st, ids[k], SeatPending)]
  {
    assert ids[..k + 1][..k] == ids[..k];
  }

  lemma BulkPaymentsStep(n: BookId, seats: seq<Seat>, ids: seq<SeatId>, k: nat)
    requires k < |ids|
    ensures BulkPayments(n, seats, ids[..k + 1]) ==
            BulkPayments(n, seats, ids[..k])[n + k := PaymentRow(PriceOf(seats, ids[k]), Pending)]
  {
    assert ids[..k + 1][..k] == ids[..k];
  }

  lemma BulkItemsStep(n: BookId, seats: seq<Seat>, ids: seq<SeatId>, k: nat)
    requires k < |ids|
    ensures BulkItems(n, seats, ids[..k + 1]) ==
            BulkItems(n, seats, ids[..k]) + [Item(n + k, ids[k], PriceOf(seats, ids[k]))]
  {
    assert ids[..k + 1][k] == ids[k];
    var lhs := BulkItems(n, seats, ids[..k + 1]);
    var rhs := BulkItems(n, seats, ids[..k]) + [Item(n + k, ids[k], PriceOf(seats, ids[k]))];
    forall i | 0 <= i < k + 1 ensures lhs[i] == rhs[i] {
      if i < k { assert ids[..k + 1][i] == ids[..k][i]; }
    }
  }

  /** Adding the k-th row to a union with fresh keys is the union with the k-th row added. */
  lemma UnionUpdate<V>(m: map<BookId, V>, extra: map<BookId, V>, b: BookId, v: V)
    ensures (m + extra)[b := v] == m + extra[b := v]
  {
  }

  /** One iteration of the bulk loop, table by table: inserting the k-th row under
      book_id n + k into a table holding the first k rows gives the table holding k + 1. */
  lemma BookingsGrow(m: map<BookId, BookingRow>, n: BookId, u: UserId, st: ShowtimeId, k: nat)
    ensures (m + BulkBookings(n, u, st, k))[n + k := BookingRow(u, st)] == m + BulkBookings(n, u, st, k + 1)
  {
    UnionUpdate(m, BulkBookings(n, u, st, k), n + k, BookingRow(u, st));
  }

  lemma SeatRowsGrow(m: map<BookId, SeatRow>, n: BookId, st: ShowtimeId, ids: seq<SeatId>, k: nat)
    requires k < |ids|
    ensures (m + BulkSeatRows(n, st, ids[..k]))[n + k := SeatRow(st, ids[k], SeatPending)]
            == m + BulkSeatRows(n, st, ids[..k + 1])
  {
    BulkSeatRowsStep(n, st, ids, k);
    UnionUpdate(m, BulkSeatRows(n, st, ids[..k]), n + k, SeatRow(st, ids[k], SeatPending));
  }

  lemma PaymentsGrow(m: map<BookId, PaymentRow>, n: BookId, seats: seq<Seat>, ids: seq<SeatId>, k: nat)
    requires k < |ids|
    ensures (m + BulkPayments(n, seats, ids[..k]))[n + k := PaymentRow(PriceOf(seats, ids[k]), Pending)]
            == m + BulkPayments(n, seats, ids[..k + 1])
  {
    BulkPaymentsStep(n, seats, ids, k);
    UnionUpdate(m, BulkPayments(n, seats, ids[..k]), n + k, PaymentRow(PriceOf(seats, ids[k]), Pending));
  }

  /** Mid-request, a seat is taken exactly when it was taken before the request
      or an earlier position of the same request named it. */
  lemma TakenMidBulk(s0: map<BookId, SeatRow>, n: BookId, st: ShowtimeId, ids: seq<SeatId>, k: nat)
    requires k < |ids|
    requires forall b :: b in s0 ==> b < n
    ensures Taken(s0 + BulkSeatRows(n, st, ids[..k]), st, ids[k]) <==> Taken(s0, st, ids[k]) || ids[k] in ids[..k]
  {
    BulkSeatRowsAt(n, st, ids[..k]);
    var cur := s0 + BulkSeatRows(n, st, ids[..k]);
    if ids[k] in ids[..k] {
      var i :| 0 <= i < k && ids[..k][i] == ids[k];
      assert n + i in BulkSeatRows(n, st, ids[..k]);
      assert cur[n + i] == SeatRow(st, ids[k], SeatPending);
    }
    if Taken(s0, st, ids[k]) {
      var b :| b in s0 && s0[b].showtime == st && s0[b].seat == ids[k];
      assert b !in BulkSeatRows(n, st, ids[..k]);
      assert cur[b] == s0[b];
    }
    if Taken(cur, st, ids[k]) && !Taken(s0, st, ids[k]) {
      var b :| b in cur && cur[b].showtime == st && cur[b].seat == ids[k];
      if b in BulkSeatRows(n, st, ids[..k]) {
        assert ids[..k][b - n] == ids[k];
      } else {
        assert b in s0 && cur[b] == s0[b];
      }
    }
  }

  lemma MarkPaidStep(payments: map<BookId, PaymentRow>, ids: seq<BookId>, k: nat)
    requires k < |ids|
    ensures MarkPaid(payments, ids[..k + 1]) == SetPaid(MarkPaid(payments, ids[..k]), ids[k])
  {
    var lhs := MarkPaid(payments, ids[..k + 1]);
    var rhs := SetPaid(MarkPaid(payments, ids[..k]), ids[k]);
    forall b | b in lhs ensures lhs[b] == rhs[b] {
      assert b in ids[..k + 1] <==> b in ids[..k] || b == ids[k] by {
        assert ids[..k + 1] == ids[..k] + [ids[k]];
      }
    }
  }

  lemma MarkBookedStep(bookSeat: map<BookId, SeatRow>, ids: seq<BookId>, k: nat)
    requires k < |ids|
    ensures MarkBooked(bookSeat, ids[..k + 1]) == SetBooked(MarkBooked(bookSeat, ids[..k]), ids[k])
  {
    var lhs := MarkBooked(bookSeat, ids[..k + 1]);
    var rhs := SetBooked(MarkBooked(bookSeat, ids[..k]), ids[k]);
    forall b | b in lhs ensures lhs[b] == rhs[b] {
      assert b in ids[..k + 1] <==> b in ids[..k] || b == ids[k] by {
        assert ids[..k + 1] == ids[..k] + [ids[k]];
      }
    }
  }
}
