// Histories of re-resolution: asking who held a grant at an instant gives back the audience resolved
// last before it (backend/apps/schedules/audience_services.py, lines 153-232, and
// backend/apps/schedules/permissions.py, lines 19-27).
module GrantHistories {
  import opened Results
  import opened Audience
  import opened Grants

  datatype Round = Round(at: int, res: Resolution)

  ghost predicate AllFormed(h: seq<Round>) {
    forall i :: 0 <= i < |h| ==> WellFormed(h[i].res)
  }

  // Rounds in time order; several may fall on one instant.
  ghost predicate InOrder(h: seq<Round>) {
    AllFormed(h) && forall i, j :: 0 <= i < j < |h| ==> h[i].at <= h[j].at
  }

  // Rounds at increasing times.
  ghost predicate Increasing(h: seq<Round>) {
    AllFormed(h) && forall i, j :: 0 <= i < j < |h| ==> h[i].at < h[j].at
  }

  ghost function Replay(h: seq<Round>): seq<Grant>
    requires AllFormed(h)
  {
    if h == [] then [] else Reresolved(Replay(h[..|h| - 1]), h[|h| - 1].at, h[|h| - 1].res)
  }

  // The audience computed by the latest round at or before t; nobody before the first round.
  function AudienceAt(h: seq<Round>, t: int): set<int> {
    if h == [] then {}
    else if h[|h| - 1].at <= t then h[|h| - 1].res.entries.Keys
    else AudienceAt(h[..|h| - 1], t)
  }

  // Rows of one recipient are non-empty, disjoint and in order, and end no later than `last`.
  ghost predicate Dated(grants: seq<Grant>, last: int) {
    && OneOpenEach(grants)
    && (forall i :: 0 <= i < |grants| ==> grants[i].validFrom <= last)
    && (forall i :: 0 <= i < |grants| && !Open(grants[i]) ==> grants[i].validFrom < grants[i].validUntil.value <= last)
    && (forall i, j :: 0 <= i < j < |grants| && grants[i].recipient == grants[j].recipient ==>
         !Open(grants[i]) && grants[i].validUntil.value <= grants[j].validFrom)
  }

  lemma StepKeepsDated(grants: seq<Grant>, last: int, now: int, res: Resolution)
    requires Dated(grants, last) && last < now && WellFormed(res)
    ensures Dated(Reresolved(grants, now, res), now)
  {
    OneOpenAfter(grants, now, res);
    AddedRows(grants, now, res, |res.order|);
    AddedDistinct(grants, now, res, |res.order|);
    var after, added := Reresolved(grants, now, res), Added(grants, now, res, |res.order|);
    forall i, j | 0 <= i < j < |after| && after[i].recipient == after[j].recipient
      ensures !Open(after[i]) && after[i].validUntil.value <= after[j].validFrom
    {
      if j >= |grants| {
        assert after[j] in added;
        assert i < |grants|;
        assert !Open(grants[i]);
      }
    }
    forall i | 0 <= i < |after| ensures after[i].validFrom <= now {
      if i >= |grants| { assert after[i] in added; }
    }
    forall i | |grants| <= i < |after| ensures Open(after[i]) {
      assert after[i] in added;
    }
  }

  lemma {:induction false} ReplayIsDated(h: seq<Round>)
    requires Increasing(h) && h != []
    ensures Dated(Replay(h), h[|h| - 1].at)
  {
    var n := |h| - 1;
    if n > 0 {
      ReplayIsDated(h[..n]);
      StepKeepsDated(Replay(h[..n]), h[n - 1].at, h[n].at, h[n].res);
    } else {
      StepKeepsDated([], h[0].at - 1, h[0].at, h[0].res);
    }
  }

  // ---- Rounds that share an instant -----------------------------------------------------

  // Grants start by `last`, and end after they start: by `last`, or one microsecond after their start.
  ghost predicate Started(grants: seq<Grant>, last: int) {
    && (forall i :: 0 <= i < |grants| ==> grants[i].validFrom <= last)
    && (forall i :: 0 <= i < |grants| && !Open(grants[i]) ==>
         && grants[i].validFrom < grants[i].validUntil.value
         && (grants[i].validUntil.value <= last || grants[i].validUntil.value == grants[i].validFrom + 1))
  }

  lemma StepKeepsStarted(grants: seq<Grant>, last: int, now: int, res: Resolution)
    requires Started(grants, last) && last <= now && WellFormed(res)
    ensures Started(Reresolved(grants, now, res), now)
  {
    AddedRows(grants, now, res, |res.order|);
    var after := Reresolved(grants, now, res);
    forall i | |grants| <= i < |after| ensures Open(after[i]) && after[i].validFrom == now {
      assert after[i] in Added(grants, now, res, |res.order|);
    }
  }

  lemma {:induction false} ReplayIsStarted(h: seq<Round>, last: int)
    requires InOrder(h) && (h != [] ==> h[|h| - 1].at <= last)
    ensures Started(Replay(h), last)
  {
    if h != [] {
      var n := |h| - 1;
      ReplayIsStarted(h[..n], h[n].at);
      StepKeepsStarted(Replay(h[..n]), h[n].at, h[n].at, h[n].res);
    }
  }

  // A grant of the recipient starts at instant t.
  ghost predicate StartsAt(grants: seq<Grant>, recipient: int, t: int) {
    exists i :: 0 <= i < |grants| && grants[i].recipient == recipient && grants[i].validFrom == t
  }

  // What one round does to the grants that start at an instant.
  lemma StepStarts(grants: seq<Grant>, now: int, res: Resolution, r: int, t: int)
    requires WellFormed(res)
    ensures StartsAt(Reresolved(grants, now, res), r, t) <==>
      StartsAt(grants, r, t) || (t == now && r in res.entries && !HasOpen(grants, r))
  {
    var after, added := Reresolved(grants, now, res), Added(grants, now, res, |res.order|);
    AddedRows(grants, now, res, |res.order|);
    if StartsAt(grants, r, t) {
      var i :| 0 <= i < |grants| && grants[i].recipient == r && grants[i].validFrom == t;
      assert after[i].recipient == r && after[i].validFrom == t;
    }
    if i :| 0 <= i < |after| && after[i].recipient == r && after[i].validFrom == t {
      if i >= |grants| {
        assert after[i] in added;
      }
    }
    if r in res.entries && !HasOpen(grants, r) {
      var k :| 0 <= k < |res.order| && res.order[k] == r;
      AddedCovers(grants, now, res, |res.order|, k);
      var g :| g in added && g.recipient == r;
      var i :| 0 <= i < |added| && added[i] == g;
      assert after[|grants| + i] == g && g.validFrom == now;
    }
  }

  // Round j, at instant t, names a recipient whom the round before it did not name.
  ghost predicate Enters(h: seq<Round>, r: int, t: int, j: nat) {
    j < |h| && h[j].at == t && r in h[j].res.entries && (j > 0 ==> r !in h[j - 1].res.entries)
  }

  ghost predicate GrantedAt(h: seq<Round>, r: int, t: int) {
    exists j :: Enters(h, r, t, j)
  }

  lemma GrantedNext(h: seq<Round>, r: int, t: int)
    requires h != []
    ensures GrantedAt(h, r, t) <==> GrantedAt(h[..|h| - 1], r, t) || Enters(h, r, t, |h| - 1)
  {
    var n := |h| - 1;
    forall j | 0 <= j < n ensures Enters(h, r, t, j) <==> Enters(h[..n], r, t, j) {}
    if GrantedAt(h[..n], r, t) {
      var j :| Enters(h[..n], r, t, j);
      assert Enters(h, r, t, j);
    }
  }

  // After a non-empty history the open grants are those of its last round.
  lemma OpenAfterReplay(h: seq<Round>, r: int)
    requires AllFormed(h)
    ensures HasOpen(Replay(h), r) <==> h != [] && r in h[|h| - 1].res.entries
  {
    if h != [] {
      OpenIsResolved(Replay(h[..|h| - 1]), h[|h| - 1].at, h[|h| - 1].res, r);
    }
  }

  // A grant starts at t exactly when a round at t lets the recipient in.
  lemma {:induction false} StartsWhenGranted(h: seq<Round>, r: int, t: int)
    requires AllFormed(h)
    ensures StartsAt(Replay(h), r, t) <==> GrantedAt(h, r, t)
  {
    if h != [] {
      var n := |h| - 1;
      StartsWhenGranted(h[..n], r, t);
      StepStarts(Replay(h[..n]), h[n].at, h[n].res, r, t);
      OpenAfterReplay(h[..n], r);
      GrantedNext(h, r, t);
    }
  }

  // After a round the resolved recipients hold a grant from its instant on.
  lemma ResolvedHold(grants: seq<Grant>, now: int, res: Resolution, r: int, t: int)
    requires Started(grants, now) && WellFormed(res) && now <= t && r in res.entries
    ensures Holds(Reresolved(grants, now, res), r, t)
  {
    var after := Reresolved(grants, now, res);
    StepKeepsStarted(grants, now, now, res);
    OpenIsResolved(grants, now, res, r);
    var i :| 0 <= i < |after| && Open(after[i]) && after[i].recipient == r;
    assert ValidAt(after[i], t);
  }

  // Others hold one at its own instant exactly when a grant of theirs started then, and later none.
  lemma OthersHold(grants: seq<Grant>, now: int, res: Resolution, r: int, t: int)
    requires Started(grants, now) && WellFormed(res) && now <= t && r !in res.entries
    ensures Holds(Reresolved(grants, now, res), r, t) <==> t == now && StartsAt(grants, r, now)
  {
    var after := Reresolved(grants, now, res);
    AddedRows(grants, now, res, |res.order|);
    forall i | |grants| <= i < |after| ensures after[i].recipient != r {
      assert after[i] in Added(grants, now, res, |res.order|);
    }
    forall i | 0 <= i < |grants| && grants[i].recipient == r
      ensures ValidAt(after[i], t) <==> t == now && grants[i].validFrom == now
    {
    }
    if StartsAt(grants, r, now) {
      var i :| 0 <= i < |grants| && grants[i].recipient == r && grants[i].validFrom == now;
      assert after[i].recipient == r;
    }
  }

  // A row answers for earlier instants as it did, and a new row not at all.
  lemma AnswersBefore(grants: seq<Grant>, now: int, res: Resolution, r: int, t: int)
    requires Started(grants, now) && t < now && WellFormed(res)
    ensures Holds(Reresolved(grants, now, res), r, t) <==> Holds(grants, r, t)
  {
    var after := Reresolved(grants, now, res);
    AddedRows(grants, now, res, |res.order|);
    forall i | 0 <= i < |grants| ensures ValidAt(after[i], t) == ValidAt(grants[i], t) {}
    forall i | |grants| <= i < |after| ensures !ValidAt(after[i], t) {
      assert after[i] in Added(grants, now, res, |res.order|);
    }
    if Holds(grants, r, t) {
      var i :| 0 <= i < |grants| && grants[i].recipient == r && ValidAt(grants[i], t);
      assert after[i].recipient == r && ValidAt(after[i], t);
    }
  }

  // As-of queries over any history of rounds in time order: holding a grant at t means belonging to
  // the audience resolved last at or before t, or having been let in by a round at t itself.
  lemma {:induction false} AsOfExactly(h: seq<Round>, r: int, t: int)
    requires InOrder(h)
    ensures Holds(Replay(h), r, t) <==> r in AudienceAt(h, t) || GrantedAt(h, r, t)
  {
    if h != [] {
      var n := |h| - 1;
      var before, now, res := Replay(h[..n]), h[n].at, h[n].res;
      ReplayIsStarted(h[..n], now);
      GrantedNext(h, r, t);
      if t < now {
        AnswersBefore(before, now, res, r, t);
        AsOfExactly(h[..n], r, t);
      } else if r in res.entries {
        ResolvedHold(before, now, res, r, t);
      } else {
        OthersHold(before, now, res, r, t);
        StartsWhenGranted(h[..n], r, now);
      }
    }
  }

  // So a recipient holds a grant at t outside the audience of t exactly when one round at t lets
  // them in and a later round at the same instant leaves them out.
  lemma StaysOnlyWhenInstantsRepeat(h: seq<Round>, r: int, t: int)
    requires InOrder(h) && r !in AudienceAt(h, t)
    ensures Holds(Replay(h), r, t) <==>
      exists j: nat, k: nat :: Enters(h, r, t, j) && j < k < |h| && h[k].at == t && r !in h[k].res.entries
  {
    AsOfExactly(h, r, t);
    if j :| Enters(h, r, t, j) {
      var k := LastAt(h, t, j);
      assert Enters(h, r, t, j) && j < k;
    }
  }

  // The last round at instant t, from round j on.
  lemma {:induction false} LastAt(h: seq<Round>, t: int, j: nat) returns (k: nat)
    requires InOrder(h) && j < |h| && h[j].at == t
    ensures j <= k < |h| && h[k].at == t && AudienceAt(h, t) == h[k].res.entries.Keys
    decreases |h|
  {
    if h[|h| - 1].at == t {
      k := |h| - 1;
    } else {
      assert h[|h| - 1].at > t;
      k := LastAt(h[..|h| - 1], t, j);
    }
  }

  // At increasing times the two never differ: holding a grant at t means belonging to the audience
  // resolved last at or before t.
  lemma AsOfAgrees(h: seq<Round>, r: int, t: int)
    requires Increasing(h)
    ensures Holds(Replay(h), r, t) <==> r in AudienceAt(h, t)
  {
    AsOfExactly(h, r, t);
    if j :| Enters(h, r, t, j) {
      var k := LastAt(h, t, j);
      assert k == j;
    }
  }

  // With the worlds the rounds were computed from: a grant at t means membership of the
  // audience of that world.
  lemma {:induction false} AsOfIsTheAudience(h: seq<Round>, worlds: seq<World>, r: int, t: int, k: nat)
    requires Increasing(h) && |worlds| == |h| && k < |h|
    requires forall i :: 0 <= i < |h| ==> Resolves(worlds[i], h[i].res)
    requires h[k].at <= t && (k + 1 < |h| ==> t < h[k + 1].at)
    ensures Holds(Replay(h), r, t) <==> InAudience(worlds[k], r)
  {
    AsOfAgrees(h, r, t);
    LatestRound(h, t, k);
  }

  lemma {:induction false} LatestRound(h: seq<Round>, t: int, k: nat)
    requires Increasing(h) && k < |h|
    requires h[k].at <= t && (k + 1 < |h| ==> t < h[k + 1].at)
    ensures AudienceAt(h, t) == h[k].res.entries.Keys
  {
    if k < |h| - 1 {
      LatestRound(h[..|h| - 1], t, k);
    }
  }

  lemma {:induction false} NothingToAdd(grants: seq<Grant>, now: int, res: Resolution, n: nat)
    requires WellFormed(res) && n <= |res.order|
    requires forall r :: r in res.entries ==> HasOpen(grants, r)
    ensures Added(grants, now, res, n) == []
  {
    if n > 0 {
      assert res.order[n - 1] in res.order;
      NothingToAdd(grants, now, res, n - 1);
    }
  }

  // Repeating a resolution later adds no row, ends none and rewrites only the time of checking.
  lemma RepeatChangesNothing(grants: seq<Grant>, now: int, later: int, res: Resolution)
    requires WellFormed(res)
    ensures var once := Reresolved(grants, now, res);
      var twice := Reresolved(once, later, res);
      && |twice| == |once|
      && forall i :: 0 <= i < |once| ==> twice[i] == once[i].(resolvedAt := if Open(once[i]) then later else once[i].resolvedAt)
  {
    var once := Reresolved(grants, now, res);
    forall r ensures HasOpen(once, r) <==> r in res.entries {
      OpenIsResolved(grants, now, res, r);
    }
    NothingToAdd(once, later, res, |res.order|);
    AddedRows(grants, now, res, |res.order|);
    forall i | 0 <= i < |once| && Open(once[i])
      ensures Touch(once[i], later, res) == once[i].(resolvedAt := later)
    {
      assert HasOpen(once, once[i].recipient);
      if i >= |grants| {
        assert once[i] in Added(grants, now, res, |res.order|);
      }
    }
  }

  // After any history in time order, one more round answers correctly at its own instant exactly when
  // every departing recipient's open grant started strictly before it, and no closed grant of a
  // recipient it does not name is valid then.
  lemma RoundAnswersItsInstantIff(h: seq<Round>, now: int, res: Resolution)
    requires InOrder(h) && (h != [] ==> h[|h| - 1].at <= now) && WellFormed(res)
    ensures var grants := Replay(h);
      (forall r :: Holds(Reresolved(grants, now, res), r, now) <==> r in res.entries) <==>
      && (forall i :: 0 <= i < |grants| && Open(grants[i]) && grants[i].recipient !in res.entries ==> grants[i].validFrom < now)
      && (forall i :: 0 <= i < |grants| && !Open(grants[i]) && grants[i].recipient !in res.entries ==> !ValidAt(grants[i], now))
  {
    ReplayIsStarted(h, now);
    InstantIff(Replay(h), now, res);
  }

  lemma InstantIff(grants: seq<Grant>, now: int, res: Resolution)
    requires Started(grants, now) && WellFormed(res)
    ensures (forall r :: Holds(Reresolved(grants, now, res), r, now) <==> r in res.entries) <==>
      && (forall i :: 0 <= i < |grants| && Open(grants[i]) && grants[i].recipient !in res.entries ==> grants[i].validFrom < now)
      && (forall i :: 0 <= i < |grants| && !Open(grants[i]) && grants[i].recipient !in res.entries ==> !ValidAt(grants[i], now))
  {
    forall r ensures Holds(Reresolved(grants, now, res), r, now) <==> r in res.entries || StartsAt(grants, r, now) {
      if r in res.entries {
        ResolvedHold(grants, now, res, r, now);
      } else {
        OthersHold(grants, now, res, r, now);
      }
    }
    forall i | 0 <= i < |grants| && grants[i].recipient !in res.entries
      ensures StartsAt(grants, grants[i].recipient, now) || grants[i].validFrom < now
    {
    }
    forall i | 0 <= i < |grants| && !Open(grants[i]) ensures ValidAt(grants[i], now) <==> grants[i].validFrom == now {}
  }

  // Two rounds at the same instant, the second without the recipient: the grant outlives it.
  lemma SameInstantLeavesAGrant()
    ensures exists first, second, r, t ::
      && WellFormed(first) && WellFormed(second) && r !in second.entries
      && Holds(Reresolved(Reresolved([], t, first), t, second), r, t)
  {
    var e := Evidence({FromAccount}, {});
    var first, second := Resolution([7], map[7 := e]), Resolution([], map[]);
    assert Added([], 0, first, 0) == [];
    assert Added([], 0, first, 1) == [Grant(7, 0, None, e, 0)];
    var once := Reresolved([], 0, first);
    assert once == [Grant(7, 0, None, e, 0)];
    var twice := Reresolved(once, 0, second);
    assert twice[0] == Grant(7, 0, Some(1), e, 0);
    assert Holds(twice, 7, 0);
  }

  // Rounds with {7}, nobody and nobody at one instant: nothing is open before the third, which ends
  // no grant, and 7 is still answered for.
  lemma EndedGrantStillAnswers()
    ensures exists h: seq<Round>, now, res, r ::
      && InOrder(h) && (forall i :: 0 <= i < |h| ==> h[i].at == now) && WellFormed(res) && r !in res.entries
      && (forall x :: !HasOpen(Replay(h), x))
      && Holds(Reresolved(Replay(h), now, res), r, now)
  {
    var e := Evidence({FromAccount}, {});
    var first, nobody := Resolution([7], map[7 := e]), Resolution([], map[]);
    var h := [Round(0, first), Round(0, nobody)];
    assert Enters(h, 7, 0, 0);
    StartsWhenGranted(h, 7, 0);
    ReplayIsStarted(h, 0);
    OthersHold(Replay(h), 0, nobody, 7, 0);
    forall x ensures !HasOpen(Replay(h), x) {
      OpenAfterReplay(h, x);
    }
  }
}
