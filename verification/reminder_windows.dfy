// Which occurrences of a timed series one reminder scan picks up, and which a sequence of scans
// covers (backend/apps/schedules/recurrence.py, backend/apps/schedules/reminder_services.py).
module ReminderWindows {
  import opened Clock
  import opened Results

  const MAX_OCCURRENCES: int := 1000

  datatype Occurrence = Occurrence(startsAt: int, endsAt: int)

  datatype ExpandError = TooManyOccurrences

  predicate TimeOverlaps(start: int, end: int, windowStart: int, windowEnd: int) {
    start < windowEnd && end > windowStart
  }

  ghost predicate StrictlyIncreasing(series: seq<int>) {
    forall i, j :: 0 <= i < j < |series| ==> series[i] < series[j]
  }

  // The occurrences that overlap the window, in series order.
  function Overlapping(series: seq<int>, duration: int, windowStart: int, windowEnd: int): seq<Occurrence> {
    if series == [] then []
    else
      var s := series[|series| - 1];
      Overlapping(series[..|series| - 1], duration, windowStart, windowEnd)
      + if TimeOverlaps(s, s + duration, windowStart, windowEnd) then [Occurrence(s, s + duration)] else []
  }

  // expand_occurrences for a timed item whose rule has already produced its starts.
  method Expand(series: seq<int>, duration: int, windowStart: int, windowEnd: int)
    returns (r: Result<seq<Occurrence>, ExpandError>)
    ensures |series| > MAX_OCCURRENCES ==> r == Err(TooManyOccurrences)
    ensures |series| <= MAX_OCCURRENCES ==> r == Ok(Overlapping(series, duration, windowStart, windowEnd))
  {
    if |series| > MAX_OCCURRENCES { return Err(TooManyOccurrences); }
    var output: seq<Occurrence> := [];
    for i := 0 to |series|
      invariant output == Overlapping(series[..i], duration, windowStart, windowEnd)
    {
      assert series[..i + 1][..i] == series[..i];
      var start, end := series[i], series[i] + duration;
      if TimeOverlaps(start, end, windowStart, windowEnd) {
        output := output + [Occurrence(start, end)];
      }
    }
    assert series[..|series|] == series;
    r := Ok(output);
  }

  // A scan looks five minutes to either side of now + offset, then tests when the reminder is due.
  predicate Due(start: int, offset: int, now: int) {
    now - 5 * MINUTE <= start - offset <= now + 5 * MINUTE
  }

  function DueStarts(occurrences: seq<Occurrence>, offset: int, now: int, closed: set<int>): seq<int> {
    if occurrences == [] then []
    else
      var o := occurrences[|occurrences| - 1];
      DueStarts(occurrences[..|occurrences| - 1], offset, now, closed)
      + if Due(o.startsAt, offset, now) && o.startsAt !in closed then [o.startsAt] else []
  }

  function Selected(series: seq<int>, duration: int, offset: int, now: int, closed: set<int>): seq<int> {
    DueStarts(Overlapping(series, duration, now + offset - 5 * MINUTE, now + offset + 5 * MINUTE), offset, now, closed)
  }

  // The occurrence loop of create_due_schedule_reminders for one item and one reminder offset;
  // `closed` holds the occurrences with a cancelled or completed exception.
  method ScanSeries(series: seq<int>, duration: int, offset: int, now: int, closed: set<int>)
    returns (r: Result<seq<int>, ExpandError>)
    ensures |series| > MAX_OCCURRENCES ==> r == Err(TooManyOccurrences)
    ensures |series| <= MAX_OCCURRENCES ==> r == Ok(Selected(series, duration, offset, now, closed))
  {
    var expanded := Expand(series, duration, now + offset - 5 * MINUTE, now + offset + 5 * MINUTE);
    if expanded.Err? { return Err(expanded.error); }
    var occurrences := expanded.value;
    var selected: seq<int> := [];
    for i := 0 to |occurrences|
      invariant selected == DueStarts(occurrences[..i], offset, now, closed)
    {
      assert occurrences[..i + 1][..i] == occurrences[..i];
      var start := occurrences[i].startsAt;
      if !Due(start, offset, now) { continue; }
      if start in closed { continue; }
      selected := selected + [start];
    }
    assert occurrences[..|occurrences|] == occurrences;
    r := Ok(selected);
  }

  lemma {:induction false} OverlappingMembers(series: seq<int>, duration: int, from: int, to: int, o: Occurrence)
    ensures o in Overlapping(series, duration, from, to) <==>
      o.startsAt in series && o.endsAt == o.startsAt + duration && TimeOverlaps(o.startsAt, o.endsAt, from, to)
  {
    if series != [] {
      OverlappingMembers(series[..|series| - 1], duration, from, to, o);
      assert series == series[..|series| - 1] + [series[|series| - 1]];
    }
  }

  predicate Lasts(o: Occurrence, t: int) { o.startsAt <= t < o.endsAt }

  // The expansion lists, for each start of the series, the occurrence that lasts from it for the duration,
  // if that shares an instant with the window.
  lemma ExpandedIff(series: seq<int>, duration: int, from: int, to: int, o: Occurrence)
    requires duration > 0 && from < to
    ensures o in Overlapping(series, duration, from, to) <==>
      && o.startsAt in series && o.endsAt == o.startsAt + duration
      && exists t :: from <= t < to && Lasts(o, t)
  {
    OverlappingMembers(series, duration, from, to, o);
    if TimeOverlaps(o.startsAt, o.endsAt, from, to) && o.endsAt == o.startsAt + duration {
      var t := if o.startsAt < from then from else o.startsAt;
      assert Lasts(o, t);
    }
  }

  lemma {:induction false} DueMembers(occurrences: seq<Occurrence>, offset: int, now: int, closed: set<int>, s: int)
    ensures s in DueStarts(occurrences, offset, now, closed) <==>
      Due(s, offset, now) && s !in closed && exists o :: o in occurrences && o.startsAt == s
  {
    if occurrences != [] {
      var n := |occurrences| - 1;
      DueMembers(occurrences[..n], offset, now, closed, s);
      assert occurrences == occurrences[..n] + [occurrences[n]];
    }
  }

  // The pre-filter and the inclusive due test together select exactly a half-open ten-minute band.
  lemma SelectedExactly(series: seq<int>, duration: int, offset: int, now: int, closed: set<int>, s: int)
    requires duration > 0
    ensures s in Selected(series, duration, offset, now, closed) <==>
      s in series && s !in closed && now + offset - 5 * MINUTE <= s < now + offset + 5 * MINUTE
  {
    var from, to := now + offset - 5 * MINUTE, now + offset + 5 * MINUTE;
    var occurrences := Overlapping(series, duration, from, to);
    DueMembers(occurrences, offset, now, closed, s);
    OverlappingMembers(series, duration, from, to, Occurrence(s, s + duration));
    if o :| o in occurrences && o.startsAt == s {
      OverlappingMembers(series, duration, from, to, o);
    }
  }

  // A series without repeats is never selected twice by one scan.
  lemma {:induction false} SelectedIncreasing(series: seq<int>, duration: int, offset: int, now: int, closed: set<int>)
    requires StrictlyIncreasing(series)
    ensures StrictlyIncreasing(Selected(series, duration, offset, now, closed))
  {
    var from, to := now + offset - 5 * MINUTE, now + offset + 5 * MINUTE;
    OverlappingIncreasing(series, duration, from, to);
    DueIncreasing(Overlapping(series, duration, from, to), offset, now, closed);
  }

  ghost predicate StartsIncrease(occurrences: seq<Occurrence>) {
    forall i, j :: 0 <= i < j < |occurrences| ==> occurrences[i].startsAt < occurrences[j].startsAt
  }

  lemma {:induction false} OverlappingIncreasing(series: seq<int>, duration: int, from: int, to: int)
    requires StrictlyIncreasing(series)
    ensures StartsIncrease(Overlapping(series, duration, from, to))
  {
    if series != [] {
      var n := |series| - 1;
      var rest := Overlapping(series[..n], duration, from, to);
      OverlappingIncreasing(series[..n], duration, from, to);
      forall i | 0 <= i < |rest| ensures rest[i].startsAt < series[n] {
        OverlappingMembers(series[..n], duration, from, to, rest[i]);
        var k :| 0 <= k < n && series[..n][k] == rest[i].startsAt;
      }
    }
  }

  lemma {:induction false} DueIncreasing(occurrences: seq<Occurrence>, offset: int, now: int, closed: set<int>)
    requires StartsIncrease(occurrences)
    ensures StrictlyIncreasing(DueStarts(occurrences, offset, now, closed))
  {
    if occurrences != [] {
      var n := |occurrences| - 1;
      var rest := DueStarts(occurrences[..n], offset, now, closed);
      DueIncreasing(occurrences[..n], offset, now, closed);
      forall i | 0 <= i < |rest| ensures rest[i] < occurrences[n].startsAt {
        DueMembers(occurrences[..n], offset, now, closed, rest[i]);
        var o :| o in occurrences[..n] && o.startsAt == rest[i];
        var k :| 0 <= k < n && occurrences[..n][k] == o;
      }
    }
  }

  // ---- Coverage by a sequence of scans --------------------------------------------------

  ghost predicate Ordered(scans: seq<int>) {
    forall i, j :: 0 <= i < j < |scans| ==> scans[i] <= scans[j]
  }

  ghost predicate GapsFit(scans: seq<int>) {
    forall i :: 0 <= i < |scans| - 1 ==> Gap(scans, i) <= 10 * MINUTE
  }

  function Gap(scans: seq<int>, i: nat): int
    requires i + 1 < |scans|
  {
    scans[i + 1] - scans[i]
  }

  // Instant `due` lies in the band of scan k.
  predicate InBand(scans: seq<int>, k: int, due: int) {
    0 <= k < |scans| && scans[k] - 5 * MINUTE <= due < scans[k] + 5 * MINUTE
  }

  ghost predicate Covered(scans: seq<int>, due: int) {
    exists k :: InBand(scans, k, due)
  }

  predicate InSpan(scans: seq<int>, due: int) {
    scans != [] && scans[0] - 5 * MINUTE <= due < scans[|scans| - 1] + 5 * MINUTE
  }

  lemma {:induction false} GapsCover(scans: seq<int>, due: int)
    requires GapsFit(scans) && InSpan(scans, due)
    ensures Covered(scans, due)
  {
    var n := |scans| - 1;
    if due >= scans[n] - 5 * MINUTE {
      assert InBand(scans, n, due);
    } else {
      assert Gap(scans, n - 1) <= 10 * MINUTE;
      forall i | 0 <= i < n - 1 ensures Gap(scans[..n], i) <= 10 * MINUTE {
        assert Gap(scans[..n], i) == Gap(scans, i);
      }
      GapsCover(scans[..n], due);
      var k :| InBand(scans[..n], k, due);
      assert InBand(scans, k, due);
    }
  }

  // Scans in time order cover every instant of their span exactly when no two successive scans
  // are more than ten minutes apart.
  lemma CoverageIffGapsFit(scans: seq<int>)
    requires Ordered(scans)
    ensures (forall due :: InSpan(scans, due) ==> Covered(scans, due)) <==> GapsFit(scans)
  {
    if GapsFit(scans) {
      forall due | InSpan(scans, due) ensures Covered(scans, due) {
        GapsCover(scans, due);
      }
    } else {
      var i :| 0 <= i < |scans| - 1 && Gap(scans, i) > 10 * MINUTE;
      var due := scans[i] + 5 * MINUTE;
      forall k ensures !InBand(scans, k, due) {}
      assert InSpan(scans, due) && !Covered(scans, due);
    }
  }

  // Every occurrence due in the span is selected by at least one scan.
  lemma EveryOccurrenceSelected(series: seq<int>, duration: int, offset: int, scans: seq<int>, closed: set<int>, s: int)
    requires duration > 0 && GapsFit(scans)
    requires s in series && s !in closed && InSpan(scans, s - offset)
    ensures exists k :: 0 <= k < |scans| && s in Selected(series, duration, offset, scans[k], closed)
  {
    GapsCover(scans, s - offset);
    var k :| InBand(scans, k, s - offset);
    SelectedExactly(series, duration, offset, scans[k], closed, s);
  }
}
