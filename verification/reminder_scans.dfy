// A whole reminder scan over the active items: it takes the first `limit` items in whatever order the
// database lists them, and the first series it cannot expand ends it
// (backend/apps/schedules/reminder_services.py, lines 253-327; recurrence.py, lines 40-58;
// models.py, lines 111-120).
module ReminderScans {
  import opened Clock
  import opened Results
  import opened Sequences
  import opened ReminderWindows

  // A timed item with its series, the offsets of its reminders and the occurrences closed by an
  // exception. `span` counts the days from the first date to the last of a recurring item; `leap` says
  // that a 29 February falls in the two years after the first date.
  datatype Item = Item(series: seq<int>, duration: int, offsets: seq<int>, closed: set<int>, span: Option<int>, leap: bool)

  datatype Hit = Hit(item: nat, offset: int, start: int)

  // One scan: its clock and the order of the query's rows.
  datatype Scan = Scan(now: int, order: seq<nat>)

  // What saving an item demands of its recurrence.
  predicate Saves(item: Item) {
    item.span.Some? ==> item.span.value <= 731
  }

  // What expanding it demands: two calendar years, and a thousand occurrences.
  predicate SpanTooLong(item: Item) {
    item.span.Some? && item.span.value > if item.leap then 731 else 730
  }

  predicate Refused(item: Item) {
    SpanTooLong(item) || |item.series| > MAX_OCCURRENCES
  }

  // The two limits differ: an item can be saved and is refused afterwards, for its span, exactly when it
  // recurs for 731 days without a leap day.
  lemma SavedButRefusedIff(item: Item)
    requires |item.series| <= MAX_OCCURRENCES
    ensures Saves(item) && Refused(item) <==> item.span == Some(731) && !item.leap
  {
  }

  // The query lists items that have reminders.
  predicate Lists(items: seq<Item>, order: seq<nat>) {
    forall p :: 0 <= p < |order| ==> order[p] < |items| && items[order[p]].offsets != []
  }

  function StartsAsHits(id: nat, offset: int, starts: seq<int>): seq<Hit> {
    seq(|starts|, i requires 0 <= i < |starts| => Hit(id, offset, starts[i]))
  }

  function ItemHits(id: nat, item: Item, now: int, offsets: seq<int>): seq<Hit> {
    if offsets == [] then []
    else
      var offset := offsets[|offsets| - 1];
      ItemHits(id, item, now, offsets[..|offsets| - 1])
      + StartsAsHits(id, offset, Selected(item.series, item.duration, offset, now, item.closed))
  }

  function HitsOf(items: seq<Item>, now: int, order: seq<nat>): seq<Hit>
    requires Lists(items, order)
  {
    if order == [] then []
    else
      var id := order[|order| - 1];
      HitsOf(items, now, order[..|order| - 1]) + ItemHits(id, items[id], now, items[id].offsets)
  }

  function Taken(scan: Scan, limit: nat): seq<nat> {
    First(scan.order, limit)
  }

  // How many of these items a scan gets through before one is refused.
  function Passed(items: seq<Item>, order: seq<nat>): (n: nat)
    requires Lists(items, order)
    ensures n <= |order|
    ensures forall p :: 0 <= p < n ==> !Refused(items[order[p]])
    ensures n < |order| ==> Refused(items[order[n]])
  {
    if order == [] then 0
    else
      var n := Passed(items, order[..|order| - 1]);
      if n < |order| - 1 || Refused(items[order[n]]) then n else n + 1
  }

  // One item of the loop: every reminder expands the series anew.
  method ScanItem(id: nat, item: Item, now: int) returns (r: Result<seq<Hit>, ExpandError>)
    requires item.offsets != []
    ensures Refused(item) ==> r == Err(TooManyOccurrences)
    ensures !Refused(item) ==> r == Ok(ItemHits(id, item, now, item.offsets))
  {
    var hits: seq<Hit> := [];
    for i := 0 to |item.offsets|
      invariant hits == ItemHits(id, item, now, item.offsets[..i])
      invariant i > 0 ==> !Refused(item)
    {
      if SpanTooLong(item) { return Err(TooManyOccurrences); }
      var starts := ScanSeries(item.series, item.duration, item.offsets[i], now, item.closed);
      if starts.Err? { return Err(starts.error); }
      hits := hits + StartsAsHits(id, item.offsets[i], starts.value);
      assert item.offsets[..i + 1][..i] == item.offsets[..i];
    }
    assert item.offsets[..|item.offsets|] == item.offsets;
    r := Ok(hits);
  }

  // The scan: it keeps what it did before the refusal that ends it.
  method ScanItems(items: seq<Item>, scan: Scan, limit: nat) returns (hits: seq<Hit>, failed: bool)
    requires Lists(items, scan.order)
    ensures var taken := Taken(scan, limit);
      var passed := Passed(items, taken);
      hits == HitsOf(items, scan.now, taken[..passed]) && (failed <==> passed < |taken|)
  {
    var taken := Taken(scan, limit);
    ghost var passed := Passed(items, taken);
    hits, failed := [], false;
    for p := 0 to |taken|
      invariant hits == HitsOf(items, scan.now, taken[..p]) && p <= passed
    {
      var found := ScanItem(taken[p], items[taken[p]], scan.now);
      if found.Err? {
        failed := true;
        return;
      }
      hits := hits + found.value;
      assert taken[..p + 1][..p] == taken[..p];
    }
  }

  // ---- What a scan hits -----------------------------------------------------------------

  lemma {:induction false} ItemHitsMembers(id: nat, item: Item, now: int, offsets: seq<int>, hit: Hit)
    ensures hit in ItemHits(id, item, now, offsets) <==>
      && hit.item == id && hit.offset in offsets
      && hit.start in Selected(item.series, item.duration, hit.offset, now, item.closed)
  {
    if offsets != [] {
      var n := |offsets| - 1;
      var starts := Selected(item.series, item.duration, offsets[n], now, item.closed);
      ItemHitsMembers(id, item, now, offsets[..n], hit);
      assert offsets == offsets[..n] + [offsets[n]];
      if hit.item == id && hit.offset == offsets[n] && hit.start in starts {
        var i :| 0 <= i < |starts| && starts[i] == hit.start;
        assert StartsAsHits(id, offsets[n], starts)[i] == hit;
      }
    }
  }

  lemma {:induction false} HitsMembers(items: seq<Item>, now: int, order: seq<nat>, hit: Hit)
    requires Lists(items, order)
    ensures hit in HitsOf(items, now, order) <==>
      hit.item in order && hit in ItemHits(hit.item, items[hit.item], now, items[hit.item].offsets)
  {
    if order != [] {
      var n := |order| - 1;
      HitsMembers(items, now, order[..n], hit);
      assert order == order[..n] + [order[n]];
      ItemHitsMembers(order[n], items[order[n]], now, items[order[n]].offsets, hit);
    }
  }

  // The scan gets to the item: it is among the first `limit` rows, and neither it nor a row before it
  // is refused.
  predicate Reaches(items: seq<Item>, scan: Scan, limit: nat, id: nat)
    requires Lists(items, scan.order)
  {
    exists p :: 0 <= p < |Taken(scan, limit)| && Taken(scan, limit)[p] == id
      && forall q :: 0 <= q <= p ==> !Refused(items[scan.order[q]])
  }

  function Scanned(items: seq<Item>, scan: Scan, limit: nat): seq<Hit>
    requires Lists(items, scan.order)
  {
    var taken := Taken(scan, limit);
    HitsOf(items, scan.now, taken[..Passed(items, taken)])
  }

  lemma ReachesIffPassed(items: seq<Item>, scan: Scan, limit: nat, id: nat)
    requires Lists(items, scan.order)
    ensures Reaches(items, scan, limit, id) <==> id in Taken(scan, limit)[..Passed(items, Taken(scan, limit))]
  {
    var taken := Taken(scan, limit);
    var passed := Passed(items, taken);
    if p :| 0 <= p < |taken| && taken[p] == id && forall q :: 0 <= q <= p ==> !Refused(items[scan.order[q]]) {
      assert passed < |taken| ==> taken[passed] == scan.order[passed] && Refused(items[scan.order[passed]]);
      assert taken[..passed][p] == id;
    }
    if id in taken[..passed] {
      var p :| 0 <= p < passed && taken[p] == id;
      forall q | 0 <= q <= p ensures !Refused(items[scan.order[q]]) {
        assert taken[q] == scan.order[q];
      }
    }
  }

  // A scan picks up an occurrence for a reminder exactly when it reaches the item and the occurrence is
  // open and due in the scan's ten minutes.
  lemma HitIff(items: seq<Item>, scan: Scan, limit: nat, hit: Hit)
    requires Lists(items, scan.order) && hit.item < |items| && items[hit.item].duration > 0
    ensures hit in Scanned(items, scan, limit) <==>
      && Reaches(items, scan, limit, hit.item)
      && hit.offset in items[hit.item].offsets && hit.start in items[hit.item].series && hit.start !in items[hit.item].closed
      && scan.now - 5 * MINUTE <= hit.start - hit.offset < scan.now + 5 * MINUTE
  {
    var taken, item := Taken(scan, limit), items[hit.item];
    var order := taken[..Passed(items, taken)];
    HitsMembers(items, scan.now, order, hit);
    ItemHitsMembers(hit.item, item, scan.now, item.offsets, hit);
    SelectedExactly(item.series, item.duration, hit.offset, scan.now, item.closed, hit.start);
    ReachesIffPassed(items, scan, limit, hit.item);
  }

  // ---- Over a sequence of scans ---------------------------------------------------------

  function Clocks(scans: seq<Scan>): seq<int> {
    seq(|scans|, i requires 0 <= i < |scans| => scans[i].now)
  }

  ghost predicate AllList(items: seq<Item>, scans: seq<Scan>) {
    forall k :: 0 <= k < |scans| ==> Lists(items, scans[k].order)
  }

  predicate Open(items: seq<Item>, hit: Hit)
    requires hit.item < |items|
  {
    var item := items[hit.item];
    item.duration > 0 && hit.offset in item.offsets && hit.start in item.series && hit.start !in item.closed
  }

  // An open occurrence is picked up exactly by the scans that reach its item while it is due.
  lemma PickedUpIff(items: seq<Item>, scans: seq<Scan>, limit: nat, hit: Hit)
    requires AllList(items, scans) && hit.item < |items| && Open(items, hit)
    ensures (exists k :: 0 <= k < |scans| && hit in Scanned(items, scans[k], limit)) <==>
      exists k :: InBand(Clocks(scans), k, hit.start - hit.offset) && Reaches(items, scans[k], limit, hit.item)
  {
    forall k | 0 <= k < |scans|
      ensures hit in Scanned(items, scans[k], limit) <==>
        InBand(Clocks(scans), k, hit.start - hit.offset) && Reaches(items, scans[k], limit, hit.item)
    {
      HitIff(items, scans[k], limit, hit);
    }
  }

  // With scans at most ten minutes apart that all reach the item, none of its occurrences is missed.
  lemma ReachedItemsAreCovered(items: seq<Item>, scans: seq<Scan>, limit: nat, hit: Hit)
    requires AllList(items, scans) && hit.item < |items| && Open(items, hit)
    requires GapsFit(Clocks(scans)) && InSpan(Clocks(scans), hit.start - hit.offset)
    requires forall k :: 0 <= k < |scans| ==> Reaches(items, scans[k], limit, hit.item)
    ensures exists k :: 0 <= k < |scans| && hit in Scanned(items, scans[k], limit)
  {
    GapsCover(Clocks(scans), hit.start - hit.offset);
    var k :| InBand(Clocks(scans), k, hit.start - hit.offset);
    assert Reaches(items, scans[k], limit, hit.item);
    HitIff(items, scans[k], limit, hit);
  }

  // ---- The cut --------------------------------------------------------------------------

  // The query lists every item once.
  ghost predicate Complete(items: seq<Item>, order: seq<nat>) {
    Lists(items, order) && |order| == |items| && forall id: nat :: id < |items| ==> id in order
  }

  ghost predicate AlwaysReached(items: seq<Item>, now: int, limit: nat, id: nat) {
    forall order :: Complete(items, order) ==> Reaches(items, Scan(now, order), limit, id)
  }

  function LastIs(n: nat, id: nat): seq<nat>
    requires id < n
  {
    seq(n, i requires 0 <= i < n => if i == n - 1 then id else if i == id then n - 1 else i)
  }

  // The query has no ordering. Where every series can be expanded, an item is sure to be reached exactly
  // when the items fit the limit; otherwise the rows may come in an order that leaves it out.
  lemma AlwaysReachedIff(items: seq<Item>, now: int, limit: nat, id: nat)
    requires id < |items| && forall i :: 0 <= i < |items| ==> items[i].offsets != [] && !Refused(items[i])
    ensures AlwaysReached(items, now, limit, id) <==> |items| <= limit
  {
    if |items| <= limit {
      forall order | Complete(items, order) ensures Reaches(items, Scan(now, order), limit, id) {
        assert id in order;
        var p: nat :| p < |order| && order[p] == id;
        assert Taken(Scan(now, order), limit)[p] == id;
      }
    } else {
      var n := |items|;
      var order := LastIs(n, id);
      forall i: nat | i < n ensures i in order {
        assert order[if i == id then n - 1 else if i == n - 1 then id else i] == i;
      }
      assert Complete(items, order);
      var taken := Taken(Scan(now, order), limit);
      forall p | 0 <= p < |taken| ensures taken[p] != id {}
      assert !Reaches(items, Scan(now, order), limit, id);
    }
  }

  // A refused series in the first row: the scan fails and picks up nothing at all.
  lemma RefusedFirstStopsAll(items: seq<Item>, scan: Scan, limit: nat)
    requires Lists(items, scan.order) && scan.order != [] && limit > 0 && Refused(items[scan.order[0]])
    ensures Scanned(items, scan, limit) == [] && forall id :: !Reaches(items, scan, limit, id)
  {
    assert Taken(scan, limit)[0] == scan.order[0];
    assert Passed(items, Taken(scan, limit)) == 0;
  }
}
