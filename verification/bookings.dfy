// Booking rows of one resource, the load they put on it, and the event sweep that finds the
// smallest safe quantity (backend/apps/resources/services.py, backend/apps/resources/models.py).
module Bookings {
  import opened Results
  import opened Sums

  datatype BookingStatus = Pending | Confirmed | Reserved | Rejected | Cancelled | Completed

  // The primary key of a booking is its position in the table: bookings are never deleted.
  datatype Booking = Booking(
    requester: int,
    startsAt: int,
    endsAt: int,
    quantity: int,
    status: BookingStatus,
    version: int,
    completedAt: Option<int>)

  predicate Live(b: Booking) {
    b.status.Confirmed? || b.status.Reserved?
  }

  // The check constraints booking_quantity_gte_1 and booking_end_after_start.
  predicate Storable(b: Booking) {
    b.quantity >= 1 && b.startsAt < b.endsAt
  }

  ghost predicate AllStorable(rows: seq<Booking>) {
    forall i :: 0 <= i < |rows| ==> Storable(rows[i])
  }

  predicate Covers(b: Booking, t: int) {
    Live(b) && b.startsAt <= t < b.endsAt
  }

  predicate Overlaps(b: Booking, from: int, to: int) {
    Live(b) && b.startsAt < to && from < b.endsAt
  }

  function OneAt(t: int): Booking -> int {
    (b: Booking) => if Covers(b, t) then 1 else 0
  }

  function UnitsAt(t: int): Booking -> int {
    (b: Booking) => if Covers(b, t) then b.quantity else 0
  }

  function UnitsOver(from: int, to: int): Booking -> int {
    (b: Booking) => if Overlaps(b, from, to) then b.quantity else 0
  }

  // How many live bookings hold the resource at instant t, and how many units they hold.
  function Count(rows: seq<Booking>, t: int): int { Total(rows, OneAt(t)) }

  function Units(rows: seq<Booking>, t: int): int { Total(rows, UnitsAt(t)) }

  // Whatever a window's overlapping bookings add up to bounds the load at each of its instants.
  lemma WindowBoundsLoad(rows: seq<Booking>, from: int, to: int, t: int)
    requires AllStorable(rows) && from <= t < to
    ensures Count(rows, t) <= Units(rows, t) <= Total(rows, UnitsOver(from, to))
  {
    TotalMono(rows, OneAt(t), UnitsAt(t));
    TotalMono(rows, UnitsAt(t), UnitsOver(from, to));
  }

  lemma {:induction false} LatestCovering(rows: seq<Booking>, t: int) returns (i: int)
    ensures i == -1 ==> forall j :: 0 <= j < |rows| ==> !Covers(rows[j], t)
    ensures i != -1 ==> 0 <= i < |rows| && Covers(rows[i], t)
    ensures i != -1 ==> forall j :: 0 <= j < |rows| && Covers(rows[j], t) ==> rows[j].startsAt <= rows[i].startsAt
  {
    if rows == [] {
      i := -1;
    } else {
      var n := |rows| - 1;
      i := LatestCovering(rows[..n], t);
      if Covers(rows[n], t) && (i == -1 || rows[i].startsAt <= rows[n].startsAt) {
        i := n;
      }
    }
  }

  // The load at any instant is reached or exceeded at the start of a live booking, so checking
  // those finitely many instants checks them all.
  lemma LoadPeaksAtAStart(rows: seq<Booking>, t: int) returns (i: int)
    requires AllStorable(rows)
    ensures i == -1 ==> Count(rows, t) == 0 && Units(rows, t) == 0
    ensures i != -1 ==> 0 <= i < |rows| && Live(rows[i])
    ensures i != -1 ==> Count(rows, t) <= Count(rows, rows[i].startsAt)
    ensures i != -1 ==> Units(rows, t) <= Units(rows, rows[i].startsAt)
  {
    i := LatestCovering(rows, t);
    if i == -1 {
      var none := (b: Booking) => 0;
      TotalZero(rows);
      TotalMono(rows, OneAt(t), none);
      TotalMono(rows, none, OneAt(t));
      TotalMono(rows, UnitsAt(t), none);
      TotalMono(rows, none, UnitsAt(t));
    } else {
      var s := rows[i].startsAt;
      TotalMono(rows, OneAt(t), OneAt(s));
      TotalMono(rows, UnitsAt(t), UnitsAt(s));
    }
  }

  lemma {:induction false} TotalZero(rows: seq<Booking>)
    ensures Total(rows, (b: Booking) => 0) == 0
  {
    if rows != [] {
      TotalZero(rows[..|rows| - 1]);
    }
  }
}
