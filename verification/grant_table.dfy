// reresolve_audience as it runs over the grant rows of one group schedule
// (backend/apps/schedules/audience_services.py, lines 153-232).
module GrantTables {
  import opened Results
  import opened Audience
  import opened Grants
  import opened GrantEvidence

  // The first pass ends the open grants of recipients who left the audience.
  function Ended(g: Grant, now: int, res: Resolution): Grant {
    if Open(g) && g.recipient !in res.entries then Touch(g, now, res) else g
  }

  // A row after the first pass, and after the second has reached the first n recipients.
  function Refreshed(g: Grant, now: int, res: Resolution, n: nat): Grant
    requires n <= |res.order|
  {
    if Open(g) && (g.recipient in res.entries ==> g.recipient in res.order[..n]) then Touch(g, now, res) else g
  }

  lemma RefreshedNext(g: Grant, now: int, res: Resolution, n: nat)
    requires WellFormed(res) && n < |res.order|
    ensures Refreshed(g, now, res, n + 1) ==
      if Open(g) && g.recipient == res.order[n] then Touch(g, now, res) else Refreshed(g, now, res, n)
  {
    assert res.order[..n + 1] == res.order[..n] + [res.order[n]];
  }

  lemma AllRefreshedNext(rows: seq<Grant>, now: int, res: Resolution, n: nat)
    requires WellFormed(res) && n < |res.order|
    ensures forall k :: 0 <= k < |rows| ==>
      && Refreshed(rows[k], now, res, n + 1) ==
         if Open(rows[k]) && rows[k].recipient == res.order[n] then Touch(rows[k], now, res) else Refreshed(rows[k], now, res, n)
  {
    forall k | 0 <= k < |rows| {
      RefreshedNext(rows[k], now, res, n);
    }
  }

  // The dictionary of open grants by recipient.
  ghost predicate Indexes(open: map<int, nat>, rows: seq<Grant>, n: nat)
    requires n <= |rows|
  {
    && (forall r :: r in open ==> open[r] < n && Open(rows[open[r]]) && rows[open[r]].recipient == r)
    && (forall i :: 0 <= i < n && Open(rows[i]) ==> rows[i].recipient in open && open[rows[i].recipient] == i)
  }

  method OpenByRecipient(rows: seq<Grant>) returns (open: map<int, nat>)
    requires OneOpenEach(rows)
    ensures Indexes(open, rows, |rows|)
  {
    open := map[];
    for i := 0 to |rows|
      invariant Indexes(open, rows, i)
    {
      if Open(rows[i]) {
        open := open[rows[i].recipient := i];
      }
    }
  }

  lemma IndexKnowsOpen(open: map<int, nat>, rows: seq<Grant>, r: int)
    requires Indexes(open, rows, |rows|)
    ensures r in open <==> HasOpen(rows, r)
  {
  }

  function Departed(g: Grant, res: Resolution): int {
    if Open(g) && g.recipient !in res.entries then 1 else 0
  }

  function CountDeparted(rows: seq<Grant>, res: Resolution): int {
    if rows == [] then 0
    else CountDeparted(rows[..|rows| - 1], res) + Departed(rows[|rows| - 1], res)
  }

  // The count of departed recipients is the number of grants the round ends.
  lemma DepartedEnd(rows: seq<Grant>, now: int, res: Resolution)
    requires WellFormed(res)
    ensures CountDeparted(rows, res) == EndedCount(rows, Reresolved(rows, now, res))
  {
    DepartedAre(rows, res);
    var after := Reresolved(rows, now, res);
    assert (set i | 0 <= i < |rows| && Open(rows[i]) && !Open(after[i]))
        == (set i | 0 <= i < |rows| && Open(rows[i]) && rows[i].recipient !in res.entries);
  }

  lemma {:induction false} DepartedAre(rows: seq<Grant>, res: Resolution)
    ensures CountDeparted(rows, res) == |set i | 0 <= i < |rows| && Open(rows[i]) && rows[i].recipient !in res.entries|
  {
    var all := set i | 0 <= i < |rows| && Open(rows[i]) && rows[i].recipient !in res.entries;
    if rows == [] {
      assert all == {};
    } else {
      var n := |rows| - 1;
      DepartedAre(rows[..n], res);
      var rest := set i | 0 <= i < n && Open(rows[..n][i]) && rows[..n][i].recipient !in res.entries;
      assert all == rest + if Departed(rows[n], res) == 1 then {n} else {};
    }
  }

  class GrantTable {
    var grants: seq<Grant>

    constructor ()
      ensures grants == []
    {
      grants := [];
    }

    method EndDeparted(now: int, res: Resolution) returns (removed: int)
      modifies this
      ensures |grants| == |old(grants)|
      ensures forall i :: 0 <= i < |grants| ==> grants[i] == Ended(old(grants)[i], now, res)
      ensures removed == CountDeparted(old(grants), res)
    {
      ghost var before := grants;
      removed := 0;
      for i := 0 to |grants|
        invariant |grants| == |before|
        invariant forall k :: 0 <= k < i ==> grants[k] == Ended(before[k], now, res)
        invariant forall k :: i <= k < |before| ==> grants[k] == before[k]
        invariant removed == CountDeparted(before[..i], res)
      {
        var g := grants[i];
        assert before[..i + 1] == before[..i] + [before[i]];
        if Open(g) && g.recipient !in res.entries {
          var until := if now > g.validFrom + 1 then now else g.validFrom + 1;
          grants := grants[i := g.(validUntil := Some(until), resolvedAt := now)];
          removed := removed + 1;
        }
      }
      assert before[..|before|] == before;
    }

    // The second pass: refresh the open grant of each resolved recipient, or add one.
    method RefreshOrAdd(now: int, res: Resolution, open: map<int, nat>, ghost before: seq<Grant>)
      requires WellFormed(res) && Indexes(open, before, |before|) && |grants| == |before|
      requires forall i :: 0 <= i < |grants| ==> grants[i] == Ended(before[i], now, res)
      modifies this
      ensures grants == Reresolved(before, now, res)
    {
      var additions: seq<Grant> := [];
      for n := 0 to |res.order|
        invariant |grants| == |before|
        invariant forall k :: 0 <= k < |before| ==> grants[k] == Refreshed(before[k], now, res, n)
        invariant additions == Added(before, now, res, n)
      {
        var r := res.order[n];
        assert r in res.order;
        IndexKnowsOpen(open, before, r);
        AllRefreshedNext(before, now, res, n);
        if r in open {
          grants := grants[open[r] := grants[open[r]].(evidence := res.entries[r], resolvedAt := now)];
        } else {
          additions := additions + [Grant(r, now, None, res.entries[r], now)];
        }
      }
      assert res.order[..|res.order|] == res.order;
      assert grants == Touched(before, now, res);
      grants := grants + additions;
    }

    // reresolve_audience
    method Reresolve(w: World, group: bool, now: int) returns (added: int, removed: int, active: int)
      requires OneOpenEach(grants)
      modifies this
      ensures !group ==> grants == old(grants) && added == removed == active == 0
      ensures group ==> grants == Reresolved(old(grants), now, Gathered(w))
      ensures group ==> added == |grants| - |old(grants)| && active == |Gathered(w).entries|
      ensures group ==> ShowsWorld(w, grants, now) && removed == EndedCount(old(grants), grants)
      ensures OneOpenEach(grants)
    {
      if !group { return 0, 0, 0; }
      var evidence := GatherEvidence(w);
      ghost var before := grants;
      var held := |grants|;
      var open := OpenByRecipient(grants);
      removed := EndDeparted(now, evidence);
      RefreshOrAdd(now, evidence, open, before);
      OneOpenAfter(before, now, evidence);
      RoundShowsWorld(w, before, now, evidence);
      DepartedEnd(before, now, evidence);
      OrderCounts(evidence.order, evidence.entries.Keys);
      added, active := |grants| - held, |evidence.order|;
    }

    // The open grant of a recipient, or none.
    method FindOpen(user: int) returns (found: Option<nat>)
      ensures found.None? <==> !HasOpen(grants, user)
      ensures found.Some? ==> found.value < |grants| && Open(grants[found.value]) && grants[found.value].recipient == user
    {
      for i := 0 to |grants|
        invariant forall k :: 0 <= k < i ==> !(Open(grants[k]) && grants[k].recipient == user)
      {
        if Open(grants[i]) && grants[i].recipient == user { return Some(i); }
      }
      found := None;
    }

    // get_or_create an open grant for each recipient, and set its evidence.
    method GrantAll(now: int, res: Resolution)
      requires WellFormed(res) && OneOpenEach(grants)
      modifies this
      ensures grants == P.Published(old(grants), now, res, |res.order|)
    {
      ghost var before := grants;
      for n := 0 to |res.order|
        invariant grants == P.Published(before, now, res, n)
      {
        var user := res.order[n];
        PublishedNext(before, now, res, n);
        var found := FindOpen(user);
        if found.Some? {
          grants := grants[found.value := grants[found.value].(evidence := res.entries[user], resolvedAt := now)];
        } else {
          grants := grants + [Grant(user, now, None, res.entries[user], now)];
        }
      }
    }

    // resolve_audience
    method Publish(r: P.Request, ms: seq<Membership>, now: int) returns (refusal: Option<P.Refusal>, rows: seq<AudienceRow>)
      requires OneOpenEach(grants)
      modifies this
      ensures match P.Resolved(old(grants), r, ms, now)
        case Ok((selected, after)) => refusal == None && rows == selected && grants == after
        case Err(reason) => refusal == Some(reason) && grants == old(grants)
    {
      rows := [];
      refusal := P.Objection(r);
      if refusal.Some? { return; }
      var projects, accounts := P.Distinct(r.projects), P.Distinct(r.accounts);
      rows := P.RowsOf(projects, accounts);
      var evidence := PublishedMembers(r.actor, projects, ms);
      evidence := AddAccounts(evidence, accounts, r.actor);
      GrantAll(now, evidence);
    }
  }

  // The first loop of resolve_audience.
  method PublishedMembers(actor: int, projects: seq<int>, ms: seq<Membership>) returns (res: Resolution)
    ensures res == Joined(ms, P.PublishesOf(actor, projects))
  {
    res := Resolution([], map[]);
    for i := 0 to |ms|
      invariant res == Joined(ms[..i], P.PublishesOf(actor, projects))
    {
      assert ms[..i + 1][..i] == ms[..i];
      if ms[i].active && ms[i].project in projects && ms[i].user != actor {
        res := AddProject(res, ms[i].user, ms[i].project);
      }
    }
    assert ms[..|ms|] == ms;
  }

  // One more recipient changes only that recipient's open grant among the rows there were.
  lemma PublishedRows(before: seq<Grant>, now: int, res: Resolution, n: nat)
    requires WellFormed(res) && n < |res.order|
    ensures var user, published, next := res.order[n], P.Published(before, now, res, n), P.Published(before, now, res, n + 1);
      && user in res.entries && |before| <= |published| <= |next|
      && (forall i :: 0 <= i < |before| ==>
           && Open(published[i]) == Open(before[i]) && published[i].recipient == before[i].recipient
           && next[i] == if Open(before[i]) && before[i].recipient == user
                         then published[i].(evidence := res.entries[user], resolvedAt := now) else published[i])
  {
    assert res.order[n] in res.order;
    assert res.order[..n + 1] == res.order[..n] + [res.order[n]];
  }

  // None of the rows appended so far is the next recipient's.
  lemma AppendedAreOthers(before: seq<Grant>, now: int, res: Resolution, n: nat, i: nat)
    requires WellFormed(res) && n < |res.order|
    requires |before| <= i < |P.Published(before, now, res, n)|
    ensures P.Published(before, now, res, n)[i].recipient != res.order[n]
  {
    var published, added := P.Published(before, now, res, n), Added(before, now, res, n);
    AddedDistinct(before, now, res, n);
    assert published[i] == added[i - |before|] && published[i] in added;
  }

  lemma PublishedKnowsOpen(before: seq<Grant>, now: int, res: Resolution, n: nat)
    requires WellFormed(res) && n < |res.order|
    ensures HasOpen(P.Published(before, now, res, n), res.order[n]) <==> HasOpen(before, res.order[n])
  {
    var user, published := res.order[n], P.Published(before, now, res, n);
    PublishedRows(before, now, res, n);
    forall i | |before| <= i < |published| ensures published[i].recipient != user {
      AppendedAreOthers(before, now, res, n, i);
    }
    if i :| 0 <= i < |before| && Open(before[i]) && before[i].recipient == user {
      assert Open(published[i]) && published[i].recipient == user;
    }
  }

  // The next recipient's open grant is refreshed in place, or one is appended.
  lemma PublishedNext(before: seq<Grant>, now: int, res: Resolution, n: nat)
    requires WellFormed(res) && n < |res.order| && OneOpenEach(before)
    ensures var user, published, next := res.order[n], P.Published(before, now, res, n), P.Published(before, now, res, n + 1);
      && (HasOpen(published, user) <==> HasOpen(before, user))
      && (!HasOpen(before, user) ==> next == published + [Grant(user, now, None, res.entries[user], now)])
      && (forall i :: 0 <= i < |published| && Open(published[i]) && published[i].recipient == user ==>
           next == published[i := published[i].(evidence := res.entries[user], resolvedAt := now)])
  {
    var user, published, next := res.order[n], P.Published(before, now, res, n), P.Published(before, now, res, n + 1);
    PublishedRows(before, now, res, n);
    PublishedKnowsOpen(before, now, res, n);
    forall i | 0 <= i < |published| && Open(published[i]) && published[i].recipient == user
      ensures next == published[i := published[i].(evidence := res.entries[user], resolvedAt := now)]
    {
      if i >= |before| {
        AppendedAreOthers(before, now, res, n, i);
      }
      assert HasOpen(before, user);
    }
    if !HasOpen(before, user) {
      assert forall i :: 0 <= i < |before| ==> next[i] == published[i];
    }
  }
}
