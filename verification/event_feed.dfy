// The project event feed: the newest rows of four tables, merged newest first
// (backend/apps/projects/services.py, lines 222-313).
module EventFeed {
  import opened Results
  import opened Sums
  import opened Sequences

  datatype Source = Audit | Download | Notification | Comment

  datatype Event = Event(source: Source, id: nat, createdAt: int)

  // The `after` argument once parsed: a source, and an id when the rest was a number.
  datatype After = After(source: Source, id: nat)

  ghost predicate NewestFirst(es: seq<Event>) {
    forall i, j :: 0 <= i < j < |es| ==> es[i].createdAt >= es[j].createdAt
  }

  ghost predicate IdsDescend(es: seq<Event>) {
    forall i, j :: 0 <= i < j < |es| ==> es[i].id > es[j].id
  }

  predicate Skipped(e: Event, after: Option<After>) {
    after.Some? && after.value.source == e.source && e.id <= after.value.id
  }

  function Kept(es: seq<Event>, after: Option<After>): seq<Event> {
    if es == [] then []
    else Kept(es[..|es| - 1], after) + if Skipped(es[|es| - 1], after) then [] else [es[|es| - 1]]
  }

  predicate NoOlder(a: Event, b: Event) { a.createdAt >= b.createdAt }

  // sorted(events, key=createdAt, reverse=True), which keeps ties in order.
  function Sorted(es: seq<Event>): (r: seq<Event>)
    ensures multiset(r) == multiset(es)
  {
    Sort(es, NoOlder)
  }

  // max(1, min(limit, 100))
  function Clamp(limit: int): (k: nat)
    ensures limit < 1 ==> k == 1
    ensures 1 <= limit <= 100 ==> k == limit
    ensures 100 < limit ==> k == 100
  {
    var capped := if limit < 100 then limit else 100;
    if capped > 1 then capped else 1
  }

  // The tables in the order the feed reads them, each newest first.
  datatype Tables = Tables(audit: seq<Event>, downloads: seq<Event>, notifications: seq<Event>, comments: seq<Event>)

  function Gathered(t: Tables, after: Option<After>, k: nat): seq<Event> {
    Kept(First(t.audit, k), after) + Kept(First(t.downloads, k), after)
    + Kept(First(t.notifications, k), after) + Kept(First(t.comments, k), after)
  }

  // One of the four loops.
  method AppendKept(events: seq<Event>, rows: seq<Event>, after: Option<After>) returns (r: seq<Event>)
    ensures r == events + Kept(rows, after)
  {
    r := events;
    for i := 0 to |rows|
      invariant r == events + Kept(rows[..i], after)
    {
      assert rows[..i + 1][..i] == rows[..i];
      if Skipped(rows[i], after) { continue; }
      r := r + [rows[i]];
    }
    assert rows[..|rows|] == rows;
  }

  // The kept rows are those that are not of the source with an id at or below it.
  lemma {:induction false} KeptMembers(es: seq<Event>, after: Option<After>, e: Event)
    ensures e in Kept(es, after) <==> e in es && !(after.Some? && e.source == after.value.source && e.id <= after.value.id)
  {
    if es != [] {
      KeptMembers(es[..|es| - 1], after, e);
      assert es == es[..|es| - 1] + [es[|es| - 1]];
    }
  }

  method GatherEvents(t: Tables, after: Option<After>, k: nat) returns (events: seq<Event>)
    ensures events == Gathered(t, after, k)
  {
    events := AppendKept([], First(t.audit, k), after);
    events := AppendKept(events, First(t.downloads, k), after);
    events := AppendKept(events, First(t.notifications, k), after);
    events := AppendKept(events, First(t.comments, k), after);
  }

  // The k newest events of the tables: newest first, as many as there are up to k, no row repeated,
  // and no event left out that is newer than one that is in.
  ghost predicate TopOf(feed: seq<Event>, t: Tables, k: nat) {
    && NewestFirst(feed)
    && |feed| == (if |All(t)| < k then |All(t)| else k)
    && multiset(feed) <= multiset(All(t))
    && (forall e, i :: 0 <= i < |feed| && multiset(feed)[e] < multiset(All(t))[e] ==> feed[i].createdAt >= e.createdAt)
  }

  // project_event_feed
  method ProjectEventFeed(t: Tables, after: Option<After>, limit: int) returns (feed: seq<Event>)
    ensures feed == First(Sorted(Gathered(t, after, Clamp(limit))), Clamp(limit))
    ensures TablesOk(t, after) ==> TopOf(feed, Unseen(t, after), Clamp(limit))
    ensures TablesOk(t, after) && after.None? ==> TopOf(feed, t, Clamp(limit))
    ensures after.Some? ==> SkipsSeen(feed, after.value.source, after.value.id)
    ensures TablesOk(t, after) && after.Some? ==>
      LeavesOutOnlyOlder(feed, t, after.value.source, after.value.id, if limit < 1 then 1 else if limit > 100 then 100 else limit)
  {
    var k := Clamp(limit);
    var events := GatherEvents(t, after, k);
    feed := First(Sorted(events), k);
    if TablesOk(t, after) {
      ServiceFeedIsTop(t, after, limit, feed);
    }
    if after.Some? {
      FeedSkipsSeen(t, after.value.source, after.value.id, k);
      if TablesOk(t, after) {
        FeedLeavesOutOnlyOlder(feed, t, after.value.source, after.value.id, k);
      }
    }
  }

  // ---- What a client that names the last event it saw gets -------------------------------

  // No event of the source at or below the id is returned.
  ghost predicate SkipsSeen(feed: seq<Event>, source: Source, id: nat) {
    forall i :: 0 <= i < |feed| && feed[i].source == source ==> feed[i].id > id
  }

  // An event of another source, or of this one with a larger id, is left out only when the feed is full
  // and everything in it is at least as new.
  ghost predicate LeavesOutOnlyOlder(feed: seq<Event>, t: Tables, source: Source, id: nat, k: nat) {
    forall e :: multiset(feed)[e] < multiset(All(t))[e] && (e.source != source || e.id > id) ==>
      |feed| == k && forall i :: 0 <= i < |feed| ==> feed[i].createdAt >= e.createdAt
  }

  lemma {:induction false} KeptSkipsSeen(es: seq<Event>, source: Source, id: nat)
    ensures SkipsSeen(Kept(es, Some(After(source, id))), source, id)
  {
    if es != [] {
      KeptSkipsSeen(es[..|es| - 1], source, id);
    }
  }

  lemma FourSkipSeen(a: seq<Event>, b: seq<Event>, c: seq<Event>, d: seq<Event>, source: Source, id: nat)
    requires SkipsSeen(a, source, id) && SkipsSeen(b, source, id) && SkipsSeen(c, source, id) && SkipsSeen(d, source, id)
    ensures SkipsSeen(a + b + c + d, source, id)
  {
  }

  lemma FirstSkipsSeen(es: seq<Event>, k: nat, source: Source, id: nat)
    requires SkipsSeen(es, source, id)
    ensures SkipsSeen(First(Sorted(es), k), source, id)
  {
    var sorted := Sorted(es);
    forall i | 0 <= i < |sorted| && sorted[i].source == source ensures sorted[i].id > id {
      assert sorted[i] in multiset(sorted);
      assert sorted[i] in es;
    }
  }

  lemma GatheredSkipsSeen(t: Tables, source: Source, id: nat, k: nat)
    ensures SkipsSeen(Gathered(t, Some(After(source, id)), k), source, id)
  {
    KeptSkipsSeen(First(t.audit, k), source, id);
    KeptSkipsSeen(First(t.downloads, k), source, id);
    KeptSkipsSeen(First(t.notifications, k), source, id);
    KeptSkipsSeen(First(t.comments, k), source, id);
    var after := Some(After(source, id));
    FourSkipSeen(Kept(First(t.audit, k), after), Kept(First(t.downloads, k), after), Kept(First(t.notifications, k), after),
                 Kept(First(t.comments, k), after), source, id);
  }

  lemma FeedSkipsSeen(t: Tables, source: Source, id: nat, k: nat)
    ensures SkipsSeen(First(Sorted(Gathered(t, Some(After(source, id)), k)), k), source, id)
  {
    GatheredSkipsSeen(t, source, id, k);
    FirstSkipsSeen(Gathered(t, Some(After(source, id)), k), k, source, id);
  }

  // Keeping drops no event that is not seen.
  lemma {:induction false} KeptKeeps(es: seq<Event>, source: Source, id: nat, e: Event)
    requires e.source != source || e.id > id
    ensures multiset(Kept(es, Some(After(source, id))))[e] == multiset(es)[e]
  {
    if es != [] {
      KeptCounts(es, Some(After(source, id)), e);
      KeptKeeps(es[..|es| - 1], source, id, e);
    }
  }

  // How often an event occurs among the rows and among the kept ones, after one more row.
  lemma KeptCounts(es: seq<Event>, after: Option<After>, e: Event)
    requires es != []
    ensures var front, last := es[..|es| - 1], es[|es| - 1];
      && multiset(es)[e] == multiset(front)[e] + (if last == e then 1 else 0)
      && multiset(Kept(es, after))[e] == multiset(Kept(front, after))[e] + if last == e && !Skipped(last, after) then 1 else 0
  {
    var front, last := es[..|es| - 1], es[|es| - 1];
    assert es == front + [last];
    CountLast(front, last, e);
    CountLast(Kept(front, after), last, e);
  }

  lemma CountLast(es: seq<Event>, last: Event, e: Event)
    ensures multiset(es + [last])[e] == multiset(es)[e] + if last == e then 1 else 0
    ensures es + [] == es
  {
  }

  lemma UnseenKeeps(t: Tables, source: Source, id: nat, e: Event)
    requires e.source != source || e.id > id
    ensures multiset(All(Unseen(t, Some(After(source, id)))))[e] == multiset(All(t))[e]
  {
    KeptKeeps(t.audit, source, id, e);
    KeptKeeps(t.downloads, source, id, e);
    KeptKeeps(t.notifications, source, id, e);
    KeptKeeps(t.comments, source, id, e);
  }

  lemma FewerIsSmaller(a: multiset<Event>, b: multiset<Event>, e: Event)
    requires a <= b && a[e] < b[e]
    ensures |a| < |b|
  {
    assert b == a + (b - a);
    assert e in b - a;
  }

  // A feed that is not full leaves nothing out.
  lemma FullOrWhole(feed: seq<Event>, t: Tables, k: nat, e: Event)
    requires TopOf(feed, t, k) && multiset(feed)[e] < multiset(All(t))[e]
    ensures |feed| == k
  {
    FewerIsSmaller(multiset(feed), multiset(All(t)), e);
    assert |feed| < |All(t)|;
  }

  lemma FeedLeavesOutOnlyOlder(feed: seq<Event>, t: Tables, source: Source, id: nat, k: nat)
    requires TopOf(feed, Unseen(t, Some(After(source, id))), k)
    ensures LeavesOutOnlyOlder(feed, t, source, id, k)
  {
    forall e | multiset(feed)[e] < multiset(All(t))[e] && (e.source != source || e.id > id)
      ensures |feed| == k && forall i :: 0 <= i < |feed| ==> feed[i].createdAt >= e.createdAt
    {
      UnseenKeeps(t, source, id, e);
      FullOrWhole(feed, Unseen(t, Some(After(source, id))), k, e);
    }
  }

  // A client that goes on from an event it received never gets an earlier one of that source that was
  // cut off, whatever the tables and limits of later calls.
  lemma CutOffIsNeverPolled(feed: seq<Event>, i: nat, missed: Event, later: Tables, k: nat)
    requires i < |feed| && missed.source == feed[i].source && missed.id < feed[i].id
    ensures missed !in First(Sorted(Gathered(later, Some(After(feed[i].source, feed[i].id)), k)), k)
  {
    FeedSkipsSeen(later, feed[i].source, feed[i].id, k);
  }

  // ---- What the feed is ----------------------------------------------------------------

  function AtLeast(c: int): Event -> int { (e: Event) => if e.createdAt >= c then 1 else 0 }

  lemma SortedNewestFirst(es: seq<Event>)
    ensures NewestFirst(Sorted(es))
  {
    SortOrdered(es, NoOlder);
    var sorted := Sorted(es);
    forall i, j | 0 <= i < j < |sorted| ensures NoOlder(sorted[i], sorted[j]) {}
  }

  // Rows of one table, whose ids rise with time when an `after` id is given.
  ghost predicate TableOk(es: seq<Event>, after: Option<After>) {
    && NewestFirst(es)
    && (forall i :: 0 <= i < |es| ==> es[i].source == es[0].source)
    && (after.Some? ==> IdsDescend(es))
  }

  // Dropping old ids cuts such a table at its first old row.
  lemma {:induction false} KeptIsPrefix(es: seq<Event>, after: Option<After>)
    requires TableOk(es, after)
    ensures Kept(es, after) <= es
    ensures forall i :: 0 <= i < |es| ==> (Skipped(es[i], after) <==> i >= |Kept(es, after)|)
  {
    if es != [] {
      var n := |es| - 1;
      KeptIsPrefix(es[..n], after);
      var m := |Kept(es[..n], after)|;
      if m < n {
        assert Skipped(es[..n][m], after);
        assert es[m].id > es[n].id;
      }
    }
  }

  // So it does not matter whether the table is cut to k rows before or after that.
  lemma KeptFirst(es: seq<Event>, after: Option<After>, k: nat)
    requires TableOk(es, after)
    ensures Kept(First(es, k), after) == First(Kept(es, after), k)
  {
    var cut := First(es, k);
    KeptIsPrefix(es, after);
    KeptIsPrefix(cut, after);
    var m, n := |Kept(es, after)|, |Kept(cut, after)|;
    if n < |cut| {
      assert Skipped(cut[n], after) == Skipped(es[n], after);
    }
    if m < |cut| {
      assert Skipped(cut[m], after) == Skipped(es[m], after);
    }
  }

  // An event beyond the first k of a newest-first table is no newer than k gathered events.
  lemma {:induction false} BeyondFirst(es: seq<Event>, k: nat, c: int)
    requires NewestFirst(es) && k <= |es| && forall i :: 0 <= i < k ==> es[i].createdAt >= c
    ensures Total(es[..k], AtLeast(c)) == k
  {
    if k > 0 {
      BeyondFirst(es, k - 1, c);
      assert es[..k] == es[..k - 1] + [es[k - 1]];
      TotalAppend(es[..k - 1], es[k - 1], AtLeast(c));
    }
  }

  lemma {:induction false} AtMostLength(es: seq<Event>, c: int)
    ensures 0 <= Total(es, AtLeast(c)) <= |es|
  {
    if es != [] {
      AtMostLength(es[..|es| - 1], c);
    }
  }

  lemma {:induction false} NoneAtLeast(es: seq<Event>, c: int)
    requires forall i :: 0 <= i < |es| ==> es[i].createdAt < c
    ensures Total(es, AtLeast(c)) == 0
  {
    if es != [] {
      NoneAtLeast(es[..|es| - 1], c);
    }
  }

  lemma SameLength(es: seq<Event>)
    ensures |Sorted(es)| == |es|
  {
    assert |multiset(Sorted(es))| == |multiset(es)|;
  }

  // In a newest-first list, everything from an event older than c on is older than c.
  lemma OlderTail(s: seq<Event>, k: nat, c: int)
    requires NewestFirst(s) && k < |s| && s[k].createdAt < c
    ensures Total(s, AtLeast(c)) <= k
  {
    var head, tail := s[..k], s[k..];
    assert s == head + tail;
    TotalConcat(head, tail, AtLeast(c));
    AtMostLength(head, c);
    forall i | 0 <= i < |tail| ensures tail[i].createdAt < c {
      assert i > 0 ==> s[k].createdAt >= s[k + i].createdAt;
    }
    NoneAtLeast(tail, c);
  }

  // If at least k of the events are no older than c, neither are the k newest.
  lemma KNewest(es: seq<Event>, k: nat, c: int, i: nat)
    requires Total(es, AtLeast(c)) >= k && i < |First(Sorted(es), k)|
    ensures First(Sorted(es), k)[i].createdAt >= c
  {
    SortedNewestFirst(es);
    SortTotal(es, NoOlder, AtLeast(c));
    AtMostLength(Sorted(es), c);
    NewestAtLeast(Sorted(es), k, c, i);
  }

  lemma NewestAtLeast(s: seq<Event>, k: nat, c: int, i: nat)
    requires NewestFirst(s) && k <= Total(s, AtLeast(c)) <= |s| && i < k
    ensures s[i].createdAt >= c
  {
    if s[i].createdAt < c {
      OlderTail(s, i, c);
      assert false;
    }
  }

  // All the events the caller has not seen, table by table.
  function Unseen(t: Tables, after: Option<After>): Tables {
    Tables(Kept(t.audit, after), Kept(t.downloads, after), Kept(t.notifications, after), Kept(t.comments, after))
  }

  function All(t: Tables): seq<Event> {
    t.audit + t.downloads + t.notifications + t.comments
  }

  function FirstOfEach(t: Tables, k: nat): seq<Event> {
    First(t.audit, k) + First(t.downloads, k) + First(t.notifications, k) + First(t.comments, k)
  }

  ghost predicate TablesOk(t: Tables, after: Option<After>) {
    TableOk(t.audit, after) && TableOk(t.downloads, after) && TableOk(t.notifications, after) && TableOk(t.comments, after)
  }

  lemma GatheredIsFirstUnseen(t: Tables, after: Option<After>, k: nat)
    requires TablesOk(t, after)
    ensures Gathered(t, after, k) == FirstOfEach(Unseen(t, after), k)
  {
    KeptFirst(t.audit, after, k);
    KeptFirst(t.downloads, after, k);
    KeptFirst(t.notifications, after, k);
    KeptFirst(t.comments, after, k);
  }

  ghost predicate AllNewestFirst(t: Tables) {
    NewestFirst(t.audit) && NewestFirst(t.downloads) && NewestFirst(t.notifications) && NewestFirst(t.comments)
  }

  lemma GatheredAtLeast(t: Tables, k: nat, c: int)
    ensures Total(FirstOfEach(t, k), AtLeast(c)) ==
      Total(First(t.audit, k), AtLeast(c)) + Total(First(t.downloads, k), AtLeast(c))
      + Total(First(t.notifications, k), AtLeast(c)) + Total(First(t.comments, k), AtLeast(c))
    ensures 0 <= Total(First(t.audit, k), AtLeast(c)) && 0 <= Total(First(t.downloads, k), AtLeast(c))
    ensures 0 <= Total(First(t.notifications, k), AtLeast(c)) && 0 <= Total(First(t.comments, k), AtLeast(c))
  {
    var a, b, d, e := First(t.audit, k), First(t.downloads, k), First(t.notifications, k), First(t.comments, k);
    TotalConcat(a + b + d, e, AtLeast(c));
    TotalConcat(a + b, d, AtLeast(c));
    TotalConcat(a, b, AtLeast(c));
    AtMostLength(a, c);
    AtMostLength(b, c);
    AtMostLength(d, c);
    AtMostLength(e, c);
  }

  // The rows that the per-table cut leaves out.
  function Rest(es: seq<Event>, k: nat): seq<Event> {
    if |es| <= k then [] else es[k..]
  }

  function RestOfEach(t: Tables, k: nat): seq<Event> {
    Rest(t.audit, k) + Rest(t.downloads, k) + Rest(t.notifications, k) + Rest(t.comments, k)
  }

  lemma CutTable(es: seq<Event>, k: nat)
    ensures es == First(es, k) + Rest(es, k)
    ensures multiset(es) == multiset(First(es, k)) + multiset(Rest(es, k))
  {
  }

  lemma CutTables(t: Tables, k: nat)
    ensures multiset(All(t)) == multiset(FirstOfEach(t, k)) + multiset(RestOfEach(t, k))
  {
    CutTable(t.audit, k);
    CutTable(t.downloads, k);
    CutTable(t.notifications, k);
    CutTable(t.comments, k);
    assert multiset(All(t)) == multiset(t.audit) + multiset(t.downloads) + multiset(t.notifications) + multiset(t.comments);
    assert multiset(FirstOfEach(t, k)) == multiset(First(t.audit, k)) + multiset(First(t.downloads, k))
      + multiset(First(t.notifications, k)) + multiset(First(t.comments, k));
    assert multiset(RestOfEach(t, k)) == multiset(Rest(t.audit, k)) + multiset(Rest(t.downloads, k))
      + multiset(Rest(t.notifications, k)) + multiset(Rest(t.comments, k));
  }

  // A row that was cut off is no newer than the k rows kept of its table.
  lemma RestIsOld(es: seq<Event>, k: nat, e: Event)
    requires NewestFirst(es) && e in Rest(es, k)
    ensures Total(First(es, k), AtLeast(e.createdAt)) == k
  {
    var j :| k <= j < |es| && es[j] == e;
    BeyondFirst(es, k, es[j].createdAt);
  }

  // So enough events no older than it were gathered to fill the feed.
  lemma CutOffIsOld(t: Tables, k: nat, e: Event)
    requires AllNewestFirst(t) && e in RestOfEach(t, k)
    ensures Total(FirstOfEach(t, k), AtLeast(e.createdAt)) >= k
  {
    GatheredAtLeast(t, k, e.createdAt);
    if e in Rest(t.audit, k) {
      RestIsOld(t.audit, k, e);
    } else if e in Rest(t.downloads, k) {
      RestIsOld(t.downloads, k, e);
    } else if e in Rest(t.notifications, k) {
      RestIsOld(t.notifications, k, e);
    } else {
      RestIsOld(t.comments, k, e);
    }
  }

  function Feed(t: Tables, k: nat): seq<Event> {
    First(Sorted(FirstOfEach(t, k)), k)
  }

  // An event that the cut leaves out at least once is in the rest.
  lemma LeftInRest(s: seq<Event>, k: nat, e: Event)
    requires multiset(First(s, k))[e] < multiset(s)[e]
    ensures |s| > k && e in s[k..]
  {
    CutTable(s, k);
    assert multiset(s)[e] == multiset(First(s, k))[e] + multiset(Rest(s, k))[e];
    assert e in multiset(Rest(s, k));
  }

  // The k newest events, and what is not among them.
  lemma TopOmitsOlder(s: seq<Event>, k: nat, e: Event, i: nat)
    requires NewestFirst(s) && multiset(First(s, k))[e] < multiset(s)[e] && i < |First(s, k)|
    ensures First(s, k)[i].createdAt >= e.createdAt
  {
    LeftInRest(s, k, e);
    var rest := s[k..];
    var j :| 0 <= j < |rest| && rest[j] == e;
    assert s[k + j] == e;
  }

  // Nothing left out of the feed is newer than anything in it.
  lemma FeedOmitsOnlyOlder(t: Tables, k: nat, e: Event, i: nat)
    requires AllNewestFirst(t) && i < |Feed(t, k)|
    requires multiset(Feed(t, k))[e] < multiset(All(t))[e]
    ensures Feed(t, k)[i].createdAt >= e.createdAt
  {
    CutTables(t, k);
    OmitsOnlyOlder(t, FirstOfEach(t, k), k, e, i);
  }

  lemma OmitsOnlyOlder(t: Tables, g: seq<Event>, k: nat, e: Event, i: nat)
    requires AllNewestFirst(t) && g == FirstOfEach(t, k) && i < |First(Sorted(g), k)|
    requires multiset(First(Sorted(g), k))[e] < multiset(g)[e] + multiset(RestOfEach(t, k))[e]
    ensures First(Sorted(g), k)[i].createdAt >= e.createdAt
  {
    if multiset(First(Sorted(g), k))[e] < multiset(g)[e] {
      SortedNewestFirst(g);
      TopOmitsOlder(Sorted(g), k, e, i);
    } else {
      assert e in multiset(RestOfEach(t, k));
      CutOffIsOld(t, k, e);
      KNewest(g, k, e.createdAt, i);
    }
  }

  lemma FeedLength(t: Tables, k: nat)
    ensures |FirstOfEach(t, k)| >= k || |FirstOfEach(t, k)| == |All(t)|
    ensures |FirstOfEach(t, k)| <= |All(t)|
  {
  }

  // The feed is newest first and holds min(k, total) events.
  lemma FeedShape(t: Tables, k: nat)
    ensures NewestFirst(Feed(t, k))
    ensures |Feed(t, k)| == if |All(t)| < k then |All(t)| else k
  {
    SortedNewestFirst(FirstOfEach(t, k));
    SameLength(FirstOfEach(t, k));
    FeedLength(t, k);
  }

  // It repeats no row of the tables.
  lemma FeedIsDrawn(t: Tables, k: nat)
    ensures multiset(Feed(t, k)) <= multiset(All(t))
  {
    var g := FirstOfEach(t, k);
    var s := Sorted(g);
    CutTables(t, k);
    CutTable(s, k);
    MultisetChain(multiset(First(s, k)), multiset(Rest(s, k)), multiset(g), multiset(RestOfEach(t, k)), multiset(All(t)));
  }

  lemma MultisetChain(a: multiset<Event>, b: multiset<Event>, c: multiset<Event>, d: multiset<Event>, e: multiset<Event>)
    requires a + b == c && c + d == e
    ensures a <= e
  {
  }

  lemma FeedIsTop(t: Tables, k: nat)
    requires AllNewestFirst(t)
    ensures TopOf(Feed(t, k), t, k)
  {
    FeedShape(t, k);
    FeedIsDrawn(t, k);
    forall e, i | 0 <= i < |Feed(t, k)| && multiset(Feed(t, k))[e] < multiset(All(t))[e]
      ensures Feed(t, k)[i].createdAt >= e.createdAt
    {
      FeedOmitsOnlyOlder(t, k, e, i);
    }
  }

  // The service's result is that feed over the events not yet seen, for any `after` and tables
  // whose ids rise with time; without `after` it is the feed over everything.
  lemma ServiceFeedIsTheFeed(t: Tables, after: Option<After>, limit: int)
    requires TablesOk(t, after)
    ensures First(Sorted(Gathered(t, after, Clamp(limit))), Clamp(limit)) == Feed(Unseen(t, after), Clamp(limit))
    ensures AllNewestFirst(Unseen(t, after))
  {
    GatheredIsFirstUnseen(t, after, Clamp(limit));
    KeptNewestFirst(t.audit, after);
    KeptNewestFirst(t.downloads, after);
    KeptNewestFirst(t.notifications, after);
    KeptNewestFirst(t.comments, after);
  }

  lemma KeptNewestFirst(es: seq<Event>, after: Option<After>)
    requires TableOk(es, after)
    ensures NewestFirst(Kept(es, after))
  {
    KeptIsPrefix(es, after);
  }

  lemma {:induction false} NothingSkipped(es: seq<Event>)
    ensures Kept(es, None) == es
  {
    if es != [] {
      var rest, last := es[..|es| - 1], es[|es| - 1];
      NothingSkipped(rest);
      assert Kept(es, None) == rest + [last];
    }
  }

  lemma UnseenIsEverything(t: Tables)
    ensures Unseen(t, None) == t
  {
    NothingSkipped(t.audit);
    NothingSkipped(t.downloads);
    NothingSkipped(t.notifications);
    NothingSkipped(t.comments);
  }

  lemma ServiceFeedIsTop(t: Tables, after: Option<After>, limit: int, feed: seq<Event>)
    requires TablesOk(t, after) && feed == First(Sorted(Gathered(t, after, Clamp(limit))), Clamp(limit))
    ensures TopOf(feed, Unseen(t, after), Clamp(limit))
    ensures after.None? ==> TopOf(feed, t, Clamp(limit))
  {
    ServiceFeedIsTheFeed(t, after, limit);
    FeedIsTop(Unseen(t, after), Clamp(limit));
    if after.None? {
      UnseenIsEverything(t);
    }
  }
}
