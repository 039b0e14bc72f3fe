/**
  get_seats: every row of the seats table with an `available` flag for one
  showtime, derived from the book_seat rows of that showtime.
 */
module Seats {
  import opened Tables

  /** A row of the reply: seat_id, the seat name and whether it is free. */
  datatype SeatView = SeatView(id: SeatId, name: string, available: bool)

  /** Seat s is available for the requested showtime exactly when no book_seat row,
      whatever its status, exists for them. A request without showtime_id compares
      against NULL and so matches no row. */
  predicate Available(bookSeat: map<BookId, SeatRow>, showtime: Option<ShowtimeId>, s: SeatId): (a: bool)
    ensures showtime.None? ==> a
    ensures forall b :: b in bookSeat && showtime == Some(bookSeat[b].showtime) && bookSeat[b].seat == s ==> !a
    ensures !a ==> exists b :: b in bookSeat && showtime == Some(bookSeat[b].showtime) && bookSeat[b].seat == s
  {
    !(showtime.Some? && Taken(bookSeat, showtime.value, s))
  }

  /** The set built from `SELECT seat_id FROM book_seat WHERE showtime_id = ...`. */
  function BookedSeats(bookSeat: map<BookId, SeatRow>, showtime: Option<ShowtimeId>): (r: set<SeatId>)
    ensures forall s :: s in r <==> !Available(bookSeat, showtime, s)
  {
    var r := set b | b in bookSeat && showtime == Some(bookSeat[b].showtime) :: bookSeat[b].seat;
    assert forall s :: !Available(bookSeat, showtime, s) ==> s in r by {
      forall s | !Available(bookSeat, showtime, s) ensures s in r {
        var b :| b in bookSeat && bookSeat[b].showtime == showtime.value && bookSeat[b].seat == s;
        assert showtime == Some(bookSeat[b].showtime);
      }
    }
    r
  }

  /** get_seats: the seats rows in the order the table returns them, each marked
      available or not for the showtime. */
  method GetSeats(seats: seq<Seat>, bookSeat: map<BookId, SeatRow>, showtime: Option<ShowtimeId>)
    returns (views: seq<SeatView>)
    ensures |views| == |seats|
    ensures forall i :: 0 <= i < |seats| ==> views[i].id == seats[i].id && views[i].name == seats[i].name
    ensures forall i :: 0 <= i < |seats| ==>
              (views[i].available <==> Available(bookSeat, showtime, seats[i].id))
  {
    var booked := BookedSeats(bookSeat, showtime);
    views := [];
    for i := 0 to |seats|
      invariant |views| == i
      invariant forall k :: 0 <= k < i ==> views[k].id == seats[k].id && views[k].name == seats[k].name
      invariant forall k :: 0 <= k < i ==> (views[k].available <==> Available(bookSeat, showtime, seats[k].id))
    {
      views := views + [SeatView(seats[i].id, seats[i].name, seats[i].id !in booked)];
    }
  }

  /** The book_seat rows of one showtime. */
  function RowsOf(bookSeat: map<BookId, SeatRow>, st: ShowtimeId): (r: map<BookId, SeatRow>)
    ensures forall b :: b in r <==> b in bookSeat && bookSeat[b].showtime == st
  {
    map b | b in bookSeat && bookSeat[b].showtime == st :: bookSeat[b]
  }

  /** Rows of other showtimes never affect availability: two tables that agree on
      the rows of st give the same answer for every seat. */
  lemma OtherShowtimesIrrelevant(bs1: map<BookId, SeatRow>, bs2: map<BookId, SeatRow>, st: ShowtimeId, s: SeatId)
    requires RowsOf(bs1, st) == RowsOf(bs2, st)
    ensures Available(bs1, Some(st), s) == Available(bs2, Some(st), s)
  {
    if Taken(bs1, st, s) {
      var b :| b in bs1 && bs1[b].showtime == st && bs1[b].seat == s;
      assert b in RowsOf(bs1, st);
      assert bs2[b] == RowsOf(bs2, st)[b];
    }
    if Taken(bs2, st, s) {
      var b :| b in bs2 && bs2[b].showtime == st && bs2[b].seat == s;
      assert b in RowsOf(bs2, st);
      assert bs1[b] == RowsOf(bs1, st)[b];
    }
  }

  /** The status column is ignored: a table with the same rows but other statuses
      gives the same availability. */
  lemma StatusIrrelevant(bs1: map<BookId, SeatRow>, bs2: map<BookId, SeatRow>, showtime: Option<ShowtimeId>, s: SeatId)
    requires bs1.Keys == bs2.Keys
    requires forall b :: b in bs1 ==> bs1[b].showtime == bs2[b].showtime && bs1[b].seat == bs2[b].seat
    ensures Available(bs1, showtime, s) == Available(bs2, showtime, s)
  {
    if showtime.Some? && Taken(bs1, showtime.value, s) {
      var b :| b in bs1 && bs1[b].showtime == showtime.value && bs1[b].seat == s;
      assert b in bs2;
    }
  }
}
