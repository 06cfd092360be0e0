// The sweep over start and end events (backend/apps/resources/services.py, lines 393-406),
// proved to return the largest number of live bookings that ever hold the resource at once.
module Sweep {
  import opened Sums
  import opened Sequences
  import opened Bookings

  datatype Event = Event(at: int, delta: int)

  // Sort key (at, delta): at equal instants an end comes before a start.
  predicate NotAfter(a: Event, b: Event) {
    a.at < b.at || (a.at == b.at && a.delta <= b.delta)
  }

  // sorted() on (at, delta): in time order, and at equal instants ends before starts.
  lemma SortedEvents(es: seq<Event>)
    ensures var sorted := Sort(es, NotAfter);
      && Ordered(sorted, NotAfter) && multiset(sorted) == multiset(es)
      && forall i, j :: 0 <= i < j < |sorted| ==>
           sorted[i].at <= sorted[j].at && (sorted[i].at == sorted[j].at ==> sorted[i].delta <= sorted[j].delta)
  {
    SortOrdered(es, NotAfter);
    var sorted := Sort(es, NotAfter);
    forall i, j | 0 <= i < j < |sorted| ensures NotAfter(sorted[i], sorted[j]) {}
  }

  function EventsOf(b: Booking): seq<Event> {
    if Live(b) then [Event(b.startsAt, 1), Event(b.endsAt, -1)] else []
  }

  // The events appended by the first loop.
  function Events(rows: seq<Booking>): seq<Event> {
    if rows == [] then []
    else Events(rows[..|rows| - 1]) + EventsOf(rows[|rows| - 1])
  }

  function Delta(): Event -> int { (e: Event) => e.delta }

  function UpTo(t: int): Event -> int { (e: Event) => if e.at <= t then e.delta else 0 }

  // Everything before t, and of the events at t only the ends.
  function EndsFirst(t: int): Event -> int {
    (e: Event) => if e.at < t || (e.at == t && e.delta < 0) then e.delta else 0
  }

  // Each booking contributes one start and one end: its deltas up to t are 1 exactly while it
  // covers t, and counting only the ends at t never drops below zero.
  lemma BookingDeltas(b: Booking, t: int)
    requires Storable(b)
    ensures Total(EventsOf(b), UpTo(t)) == OneAt(t)(b)
    ensures 0 <= Total(EventsOf(b), EndsFirst(t))
  {
    if Live(b) {
      var start, end := Event(b.startsAt, 1), Event(b.endsAt, -1);
      assert EventsOf(b) == [start] + [end];
      TotalAppend([start], end, UpTo(t));
      TotalAppend([], start, UpTo(t));
      TotalAppend([start], end, EndsFirst(t));
      TotalAppend([], start, EndsFirst(t));
      assert [start] == [] + [start];
    }
  }

  lemma {:induction false} EventsCount(rows: seq<Booking>, t: int)
    requires AllStorable(rows)
    ensures Total(Events(rows), UpTo(t)) == Count(rows, t)
    ensures 0 <= Total(Events(rows), EndsFirst(t))
  {
    if rows != [] {
      var n := |rows| - 1;
      EventsCount(rows[..n], t);
      BookingDeltas(rows[n], t);
      TotalConcat(Events(rows[..n]), EventsOf(rows[n]), UpTo(t));
      TotalConcat(Events(rows[..n]), EventsOf(rows[n]), EndsFirst(t));
    }
  }

  lemma {:induction false} EventsAreUnit(rows: seq<Booking>)
    ensures forall i :: 0 <= i < |Events(rows)| ==> Events(rows)[i].delta == 1 || Events(rows)[i].delta == -1
  {
    if rows != [] {
      EventsAreUnit(rows[..|rows| - 1]);
    }
  }

  // Where the events up to t end in the sorted list.
  lemma {:induction false} Cut(es: seq<Event>, t: int) returns (k: nat)
    requires Ordered(es, NotAfter)
    ensures k <= |es|
    ensures forall i :: 0 <= i < k ==> es[i].at <= t
    ensures forall i :: k <= i < |es| ==> t < es[i].at
  {
    if es == [] {
      k := 0;
    } else if es[|es| - 1].at <= t {
      k := |es|;
    } else {
      k := Cut(es[..|es| - 1], t);
    }
  }

  function Zero(): Event -> int { (e: Event) => 0 }

  lemma {:induction false} ZeroTotal(es: seq<Event>)
    ensures Total(es, Zero()) == 0
  {
    if es != [] {
      ZeroTotal(es[..|es| - 1]);
    }
  }

  // The running total at the cut is the count at t.
  lemma CutIsCount(es: seq<Event>, t: int, k: nat)
    requires k <= |es|
    requires forall i :: 0 <= i < k ==> es[i].at <= t
    requires forall i :: k <= i < |es| ==> t < es[i].at
    ensures Total(es[..k], Delta()) == Total(es, UpTo(t))
  {
    assert es == es[..k] + es[k..];
    TotalConcat(es[..k], es[k..], UpTo(t));
    TotalMono(es[..k], Delta(), UpTo(t));
    TotalMono(es[..k], UpTo(t), Delta());
    TotalMono(es[k..], Zero(), UpTo(t));
    TotalMono(es[k..], UpTo(t), Zero());
    ZeroTotal(es[k..]);
  }

  // Right after a start event at t the running total is at most the count at t.
  lemma StartBelowCount(es: seq<Event>, k: nat)
    requires Ordered(es, NotAfter) && k < |es| && es[k].delta == 1
    ensures Total(es[..k + 1], Delta()) <= Total(es, UpTo(es[k].at))
  {
    var t := es[k].at;
    var c := Cut(es, t);
    CutIsCount(es, t, c);
    assert es[..c] == es[..k + 1] + es[k + 1..c];
    TotalConcat(es[..k + 1], es[k + 1..c], Delta());
    var between := es[k + 1..c];
    forall i | 0 <= i < |between| ensures 0 <= Delta()(between[i]) {
      assert NotAfter(es[k], es[k + 1 + i]);
    }
    TotalMono(between, Zero(), Delta());
    ZeroTotal(between);
  }

  // After an end event at t the list holds only starts at t or events later than t.
  lemma NoEndsAfter(es: seq<Event>, k: nat)
    requires Ordered(es, NotAfter) && 0 < k <= |es| && es[k - 1].delta == -1
    ensures Total(es[k..], EndsFirst(es[k - 1].at)) <= 0
  {
    var t, rest := es[k - 1].at, es[k..];
    forall i | 0 <= i < |rest| ensures EndsFirst(t)(rest[i]) <= Zero()(rest[i]) {
      assert rest[i] == es[k + i] && NotAfter(es[k - 1], es[k + i]);
    }
    TotalMono(rest, EndsFirst(t), Zero());
    ZeroTotal(rest);
  }

  // Up to an end event at t every start counts.
  lemma StartsBefore(es: seq<Event>, k: nat)
    requires Ordered(es, NotAfter) && 0 < k <= |es| && es[k - 1].delta == -1
    ensures Total(es[..k], EndsFirst(es[k - 1].at)) <= Total(es[..k], Delta())
  {
    var t, done := es[k - 1].at, es[..k];
    forall i | 0 <= i < |done| ensures EndsFirst(t)(done[i]) <= Delta()(done[i]) {
      assert done[i] == es[i] && (i < k - 1 ==> NotAfter(es[i], es[k - 1]));
    }
    TotalMono(done, EndsFirst(t), Delta());
  }

  // Right after an end event at t the running total keeps at least the bookings that outlive t.
  lemma EndAboveZero(es: seq<Event>, k: nat)
    requires Ordered(es, NotAfter) && 0 < k <= |es| && es[k - 1].delta == -1
    ensures Total(es, EndsFirst(es[k - 1].at)) <= Total(es[..k], Delta())
  {
    assert es == es[..k] + es[k..];
    TotalConcat(es[..k], es[k..], EndsFirst(es[k - 1].at));
    StartsBefore(es, k);
    NoEndsAfter(es, k);
  }

  // No prefix of the sorted deltas is negative.
  lemma {:induction false} PrefixNonNegative(es: seq<Event>, k: nat)
    requires Ordered(es, NotAfter) && k <= |es|
    requires forall i :: 0 <= i < |es| ==> es[i].delta == 1 || es[i].delta == -1
    requires forall t :: 0 <= Total(es, EndsFirst(t))
    ensures 0 <= Total(es[..k], Delta())
  {
    if k > 0 {
      if es[k - 1].delta == 1 {
        PrefixNonNegative(es, k - 1);
        assert es[..k] == es[..k - 1] + [es[k - 1]];
        TotalAppend(es[..k - 1], es[k - 1], Delta());
      } else {
        EndAboveZero(es, k);
      }
    }
  }

  // Largest count at the start of one of the first n bookings.
  function PeakAtStarts(rows: seq<Booking>, n: nat): int
    requires n <= |rows|
  {
    if n == 0 then 0
    else
      var rest := PeakAtStarts(rows, n - 1);
      var here := if Live(rows[n - 1]) then Count(rows, rows[n - 1].startsAt) else 0;
      if here > rest then here else rest
  }

  // The safe minimum by its meaning: what the busiest booking start needs, and at least one.
  function SafeMinimum(rows: seq<Booking>): int {
    var peak := PeakAtStarts(rows, |rows|);
    if peak > 1 then peak else 1
  }

  lemma {:induction false} PeakIsReached(rows: seq<Booking>, n: nat)
    requires n <= |rows|
    ensures forall i :: 0 <= i < n && Live(rows[i]) ==> Count(rows, rows[i].startsAt) <= PeakAtStarts(rows, n)
    ensures PeakAtStarts(rows, n) == 0 || exists t :: Count(rows, t) == PeakAtStarts(rows, n)
  {
    if n > 0 {
      PeakIsReached(rows, n - 1);
    }
  }

  // A quantity is at least the safe minimum exactly when it is positive and covers the number
  // of live bookings at every instant.
  lemma SafeMinimumIsLeast(rows: seq<Booking>, q: int)
    requires AllStorable(rows)
    ensures q >= SafeMinimum(rows) <==> q >= 1 && forall t :: Count(rows, t) <= q
  {
    PeakIsReached(rows, |rows|);
    if q >= SafeMinimum(rows) {
      forall t ensures Count(rows, t) <= q {
        var i := LoadPeaksAtAStart(rows, t);
      }
    }
  }

  lemma SweepFacts(rows: seq<Booking>, es: seq<Event>)
    requires AllStorable(rows) && es == Sort(Events(rows), NotAfter)
    ensures Ordered(es, NotAfter)
    ensures forall i :: 0 <= i < |es| ==> es[i].delta == 1 || es[i].delta == -1
    ensures forall t :: Total(es, UpTo(t)) == Count(rows, t)
    ensures forall t :: 0 <= Total(es, EndsFirst(t))
  {
    SortedEvents(Events(rows));
    forall t
      ensures Total(es, UpTo(t)) == Count(rows, t)
      ensures 0 <= Total(es, EndsFirst(t))
    {
      EventsCount(rows, t);
      SortTotal(Events(rows), NotAfter, UpTo(t));
      SortTotal(Events(rows), NotAfter, EndsFirst(t));
    }
    EventsAreUnit(rows);
    forall i | 0 <= i < |es| ensures es[i].delta == 1 || es[i].delta == -1 {
      assert es[i] in multiset(es);
      assert es[i] in multiset(Events(rows));
    }
  }

  // The value of `active` after k sorted events.
  function Running(es: seq<Event>, k: nat): int
    requires k <= |es|
  {
    Total(es[..k], Delta())
  }

  ghost predicate BoundsPrefixes(es: seq<Event>, k: nat, best: int)
    requires k <= |es|
  {
    forall j :: 0 <= j <= k ==> Running(es, j) <= best
  }

  lemma RunningNext(es: seq<Event>, k: nat)
    requires k < |es|
    ensures Running(es, k + 1) == Running(es, k) + es[k].delta
  {
    assert es[..k + 1] == es[..k] + [es[k]];
    TotalAppend(es[..k], es[k], Delta());
  }

  // One step of the sweep: the running total stays non-negative and, when it grows, it does
  // not pass the count at that instant.
  lemma SweepStep(rows: seq<Booking>, es: seq<Event>, k: nat)
    requires AllStorable(rows) && es == Sort(Events(rows), NotAfter) && k < |es|
    ensures Running(es, k + 1) == Running(es, k) + es[k].delta
    ensures 0 <= Running(es, k + 1)
    ensures es[k].delta <= 0 || Running(es, k + 1) <= Count(rows, es[k].at)
  {
    RunningNext(es, k);
    SweepFacts(rows, es);
    PrefixNonNegative(es, k + 1);
    if es[k].delta == 1 {
      StartBelowCount(es, k);
    }
  }

  lemma CountIsAPrefix(rows: seq<Booking>, es: seq<Event>, t: int) returns (k: nat)
    requires AllStorable(rows) && es == Sort(Events(rows), NotAfter)
    ensures k <= |es| && Running(es, k) == Count(rows, t)
  {
    SweepFacts(rows, es);
    k := Cut(es, t);
    CutIsCount(es, t, k);
  }

  // The first loop of _safe_minimum_quantity.
  method CollectEvents(rows: seq<Booking>) returns (events: seq<Event>)
    ensures events == Events(rows)
  {
    events := [];
    for i := 0 to |rows|
      invariant events == Events(rows[..i])
    {
      assert rows[..i + 1][..i] == rows[..i];
      if Live(rows[i]) {
        events := events + [Event(rows[i].startsAt, 1), Event(rows[i].endsAt, -1)];
      }
    }
    assert rows[..|rows|] == rows;
  }

  // _safe_minimum_quantity: collect events, sort them, run the deltas, keep the maximum.
  method SafeMinimumQuantity(rows: seq<Booking>) returns (r: int)
    requires AllStorable(rows)
    ensures r >= 1
    ensures forall t :: Count(rows, t) <= r
    ensures r == 1 || exists t :: Count(rows, t) == r
    ensures r == SafeMinimum(rows)
  {
    var events := CollectEvents(rows);
    var es := Sort(events, NotAfter);
    var active, best := 0, 0;
    ghost var at := 0;
    for k := 0 to |es|
      invariant SweptSoFar(rows, es, k, active, best, at)
    {
      SweepOn(rows, es, k, active, best, at);
      active := active + es[k].delta;
      if best < active {
        best, at := active, es[k].at;
      }
    }
    SweepResult(rows, es, best, at);
    r := if 1 >= best then 1 else best;
  }

  // After k events: the running total, its maximum so far, and an instant whose count reaches it.
  ghost predicate SweptSoFar(rows: seq<Booking>, es: seq<Event>, k: nat, active: int, best: int, at: int)
    requires k <= |es|
  {
    && active == Running(es, k) && 0 <= active <= best
    && BoundsPrefixes(es, k, best)
    && (best == 0 || best <= Count(rows, at))
  }

  lemma SweepOn(rows: seq<Booking>, es: seq<Event>, k: nat, active: int, best: int, at: int)
    requires AllStorable(rows) && es == Sort(Events(rows), NotAfter) && k < |es| && SweptSoFar(rows, es, k, active, best, at)
    ensures var next := active + es[k].delta;
      SweptSoFar(rows, es, k + 1, next, if best < next then next else best, if best < next then es[k].at else at)
  {
    SweepStep(rows, es, k);
  }

  lemma SweepResult(rows: seq<Booking>, es: seq<Event>, best: int, at: int)
    requires AllStorable(rows) && es == Sort(Events(rows), NotAfter)
    requires best >= 0 && BoundsPrefixes(es, |es|, best)
    requires best == 0 || best <= Count(rows, at)
    ensures var r := if 1 >= best then 1 else best;
      r == SafeMinimum(rows) && (forall t :: Count(rows, t) <= r) && (r == 1 || exists t :: Count(rows, t) == r)
  {
    forall t ensures Count(rows, t) <= best {
      var k := CountIsAPrefix(rows, es, t);
    }
    var r := if 1 >= best then 1 else best;
    assert r == 1 || Count(rows, at) == r;
    SafeMinimumIsLeast(rows, r);
    SafeMinimumIsLeast(rows, r - 1);
  }
}
