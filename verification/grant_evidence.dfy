// What the grant rows say after a re-resolution or a publication, read against the memberships and
// the selection themselves (backend/apps/schedules/audience_services.py, lines 108-143 and 153-232).
module GrantEvidence {
  import opened Results
  import opened Sequences
  import opened Audience
  import opened Grants
  import opened GrantHistories
  import P = Publication

  // ---- Re-resolution --------------------------------------------------------------------

  // The evidence of the grant is what the world says of its recipient.
  ghost predicate Shows(w: World, g: Grant) {
    && (forall p :: p in g.evidence.projects <==> ByProject(w, g.recipient, p))
    && (FromAccount in g.evidence.types <==> ByAccount(w, g.recipient))
    && (FromProject in g.evidence.types <==> g.evidence.projects != {})
  }

  // The open grants are those of the audience, each with its evidence as of `now`.
  ghost predicate ShowsWorld(w: World, grants: seq<Grant>, now: int) {
    && (forall r :: HasOpen(grants, r) <==> InAudience(w, r))
    && (forall i :: 0 <= i < |grants| && Open(grants[i]) ==> Shows(w, grants[i]) && grants[i].resolvedAt == now)
  }

  // Whatever the grants showed before, after a round every open one shows the world of that round.
  lemma RoundShowsWorld(w: World, grants: seq<Grant>, now: int, res: Resolution)
    requires Resolves(w, res)
    ensures ShowsWorld(w, Reresolved(grants, now, res), now)
  {
    var after := Reresolved(grants, now, res);
    AddedRows(grants, now, res, |res.order|);
    forall r ensures HasOpen(after, r) <==> InAudience(w, r) {
      OpenIsResolved(grants, now, res, r);
    }
    forall i | 0 <= i < |after| && Open(after[i]) ensures Shows(w, after[i]) && after[i].resolvedAt == now {
      if i >= |grants| {
        assert after[i] in Added(grants, now, res, |res.order|);
      }
      EvidenceShows(w, res, after[i]);
    }
  }

  lemma EvidenceShows(w: World, res: Resolution, g: Grant)
    requires Resolves(w, res) && g.recipient in res.entries && g.evidence == res.entries[g.recipient]
    ensures Shows(w, g)
  {
  }

  // So over every history the open grants show the world of the latest round, not of an earlier one.
  lemma {:induction false} OpenGrantsShowLatest(h: seq<Round>, worlds: seq<World>)
    requires h != [] && |worlds| == |h| && forall i :: 0 <= i < |h| ==> Resolves(worlds[i], h[i].res)
    ensures AllFormed(h) && ShowsWorld(worlds[|h| - 1], Replay(h), h[|h| - 1].at)
  {
    RoundShowsWorld(worlds[|h| - 1], Replay(h[..|h| - 1]), h[|h| - 1].at, h[|h| - 1].res);
  }

  // The row of a recipient who left: ended now, or a microsecond after it started if that is later.
  ghost predicate EndedAt(before: Grant, after: Grant, now: int) {
    && after.validUntil.Some? && after.resolvedAt == now
    && after.validUntil.value == (if before.validFrom < now then now else before.validFrom + 1)
    && after.evidence == before.evidence
  }

  // What becomes of each row: closed ones stay, open ones stay open or end with their recipient's place
  // in the audience, and newcomers get a row that starts now.
  lemma RoundOfRows(w: World, grants: seq<Grant>, now: int, res: Resolution)
    requires Resolves(w, res)
    ensures var after := Reresolved(grants, now, res);
      && |grants| <= |after|
      && (forall i :: 0 <= i < |grants| ==>
           && after[i].recipient == grants[i].recipient && after[i].validFrom == grants[i].validFrom
           && (!Open(grants[i]) ==> after[i] == grants[i])
           && (Open(grants[i]) ==>
                && (Open(after[i]) <==> InAudience(w, grants[i].recipient))
                && (!Open(after[i]) ==> EndedAt(grants[i], after[i], now))))
      && (forall i :: |grants| <= i < |after| ==>
           && Open(after[i]) && after[i].validFrom == now
           && InAudience(w, after[i].recipient) && !HasOpen(grants, after[i].recipient))
  {
    var after := Reresolved(grants, now, res);
    AddedRows(grants, now, res, |res.order|);
    forall i | |grants| <= i < |after|
      ensures Open(after[i]) && after[i].validFrom == now
      ensures InAudience(w, after[i].recipient) && !HasOpen(grants, after[i].recipient)
    {
      assert after[i] in Added(grants, now, res, |res.order|);
    }
  }

  // How many of the first n grants were open and are not any more.
  function EndedCount(before: seq<Grant>, after: seq<Grant>): nat
    requires |before| <= |after|
  {
    |set i | 0 <= i < |before| && Open(before[i]) && !Open(after[i])|
  }

  // The recipients named by a resolution are as many as it lists.
  lemma {:induction false} OrderCounts(order: seq<int>, keys: set<int>)
    requires NoRepeats(order) && forall r :: r in order <==> r in keys
    ensures |order| == |keys|
  {
    if order == [] {
      forall r ensures r !in keys {
        assert r !in order;
      }
      assert keys == {};
    } else {
      var n := |order| - 1;
      assert order == order[..n] + [order[n]];
      assert order[n] !in order[..n];
      OrderCounts(order[..n], keys - {order[n]});
    }
  }

  // ---- Publication ----------------------------------------------------------------------

  // The evidence of a grant just published: the projects selected in which its recipient is an active
  // member, and whether the recipient's account was selected.
  ghost predicate ShowsSelection(projects: seq<int>, accounts: seq<int>, ms: seq<Membership>, g: Grant) {
    && (forall p :: p in g.evidence.projects <==>
         exists m :: m in ms && m.user == g.recipient && m.project == p && m.active && p in projects)
    && (FromAccount in g.evidence.types <==> g.recipient in accounts)
    && (FromProject in g.evidence.types <==> g.evidence.projects != {})
  }

  lemma AnnouncedShows(actor: int, projects: seq<int>, accounts: seq<int>, ms: seq<Membership>, g: Grant)
    requires var res := P.Announced(actor, projects, accounts, ms);
      g.recipient in res.entries && g.evidence == res.entries[g.recipient]
    ensures g.recipient != actor && ShowsSelection(projects, accounts, ms, g)
  {
    var user, publishes := g.recipient, P.PublishesOf(actor, projects);
    var members := Joined(ms, publishes);
    P.AnnouncedIsPublication(actor, projects, accounts, ms, user);
    AccountsAdd(members, accounts, actor, user);
    if user in members.entries {
      JoinedTypes(ms, publishes, user);
    }
    forall p
      ensures p in g.evidence.projects <==>
        exists m :: m in ms && m.user == user && m.project == p && m.active && p in projects
    {
      JoinedProjects(ms, publishes, user, p);
      if m :| m in ms && m.user == user && m.project == p && m.active && p in projects {
        assert publishes(m);
      }
      if m :| m in ms && publishes(m) && m.user == user && m.project == p {
        assert P.PublishesTo(actor, projects, m);
      }
    }
  }

  // Publication refreshes the open grant of everyone it names, appends one that starts now for each who
  // has none, and leaves every other row alone.
  lemma PublicationOfRows(grants: seq<Grant>, actor: int, projects: seq<int>, accounts: seq<int>, ms: seq<Membership>, now: int)
    ensures var res := P.Announced(actor, projects, accounts, ms);
      var after := P.Published(grants, now, res, |res.order|);
      && |grants| <= |after|
      && (forall i :: 0 <= i < |grants| ==>
           && after[i].recipient == grants[i].recipient && after[i].validFrom == grants[i].validFrom
           && after[i].validUntil == grants[i].validUntil
           && (if Open(grants[i]) && P.InPublication(actor, projects, accounts, ms, grants[i].recipient)
               then ShowsSelection(projects, accounts, ms, after[i]) && after[i].resolvedAt == now
               else after[i] == grants[i]))
      && (forall i :: |grants| <= i < |after| ==>
           && Open(after[i]) && after[i].validFrom == now && after[i].resolvedAt == now
           && ShowsSelection(projects, accounts, ms, after[i]) && !HasOpen(grants, after[i].recipient))
      && (forall r :: P.InPublication(actor, projects, accounts, ms, r) ==> HasOpen(after, r))
  {
    var res := P.Announced(actor, projects, accounts, ms);
    var after := P.Published(grants, now, res, |res.order|);
    assert res.order[..|res.order|] == res.order;
    AddedRows(grants, now, res, |res.order|);
    forall i | |grants| <= i < |after|
      ensures Open(after[i]) && after[i].validFrom == now && after[i].resolvedAt == now
      ensures ShowsSelection(projects, accounts, ms, after[i]) && !HasOpen(grants, after[i].recipient)
    {
      assert after[i] in Added(grants, now, res, |res.order|);
      AnnouncedShows(actor, projects, accounts, ms, after[i]);
    }
    forall i | 0 <= i < |grants|
      ensures if Open(grants[i]) && P.InPublication(actor, projects, accounts, ms, grants[i].recipient)
              then ShowsSelection(projects, accounts, ms, after[i]) && after[i].resolvedAt == now
              else after[i] == grants[i]
    {
      P.AnnouncedIsPublication(actor, projects, accounts, ms, grants[i].recipient);
      if Open(grants[i]) && grants[i].recipient in res.entries {
        AnnouncedShows(actor, projects, accounts, ms, after[i]);
      }
    }
    forall r | P.InPublication(actor, projects, accounts, ms, r) ensures HasOpen(after, r) {
      PublishedHasOpen(grants, actor, projects, accounts, ms, now, r);
    }
  }

  lemma PublishedHasOpen(grants: seq<Grant>, actor: int, projects: seq<int>, accounts: seq<int>, ms: seq<Membership>, now: int, r: int)
    requires P.InPublication(actor, projects, accounts, ms, r)
    ensures var res := P.Announced(actor, projects, accounts, ms);
      HasOpen(P.Published(grants, now, res, |res.order|), r)
  {
    var res := P.Announced(actor, projects, accounts, ms);
    var after := P.Published(grants, now, res, |res.order|);
    P.AnnouncedIsPublication(actor, projects, accounts, ms, r);
    if HasOpen(grants, r) {
      var i :| 0 <= i < |grants| && Open(grants[i]) && grants[i].recipient == r;
      assert Open(after[i]) && after[i].recipient == r;
    } else {
      AddedRows(grants, now, res, |res.order|);
      var k :| 0 <= k < |res.order| && res.order[k] == r;
      AddedCovers(grants, now, res, |res.order|, k);
      var added := Added(grants, now, res, |res.order|);
      var i :| 0 <= i < |added| && added[i].recipient == r;
      assert added[i] in added;
      assert after[|grants| + i] == added[i];
    }
  }

  // ---- What may be published ------------------------------------------------------------

  lemma {:induction false} DistinctHasNoRepeats(ids: seq<int>)
    ensures NoRepeats(P.Distinct(ids))
  {
    if ids != [] {
      DistinctHasNoRepeats(ids[..|ids| - 1]);
    }
  }

  lemma AllInIff(ids: seq<int>, known: set<int>)
    ensures P.AllIn(ids, known) <==> forall id :: id in ids ==> id in known
  {
    if P.AllIn(ids, known) {
      forall id | id in ids ensures id in known {
        var i :| 0 <= i < |ids| && ids[i] == id;
      }
    }
    if forall id :: id in ids ==> id in known {
      forall i | 0 <= i < |ids| ensures ids[i] in known {
        assert ids[i] in ids;
      }
    }
  }

  // A publication goes through exactly for an actor who may publish, a group schedule, and a non-empty
  // selection of projects and accounts that are all eligible. A refusal says which of these fails.
  lemma PublishesIff(grants: seq<Grant>, r: P.Request, ms: seq<Membership>, now: int)
    ensures var reply := P.Resolved(grants, r, ms, now);
      && (reply.Ok? <==>
           && r.mayPublish && r.group && (r.projects != [] || r.accounts != [])
           && (forall p :: p in r.projects ==> p in r.eligibleProjects)
           && (forall a :: a in r.accounts ==> a in r.eligibleAccounts))
      && (reply == Err(P.Forbidden) <==> !r.mayPublish)
      && (reply == Err(P.NotGroup) ==> !r.group)
      && (reply == Err(P.NothingSelected) ==> r.projects == [] && r.accounts == [])
      && (reply == Err(P.IneligibleProject) ==> exists p :: p in r.projects && p !in r.eligibleProjects)
      && (reply == Err(P.IneligibleAccount) ==> exists a :: a in r.accounts && a !in r.eligibleAccounts)
  {
    AllInIff(r.projects, r.eligibleProjects);
    AllInIff(r.accounts, r.eligibleAccounts);
  }

  // Its audience rows are the selection, each project and account once.
  lemma PublishedRowsAreTheSelection(grants: seq<Grant>, r: P.Request, ms: seq<Membership>, now: int)
    requires P.Resolved(grants, r, ms, now).Ok?
    ensures var rows := P.Resolved(grants, r, ms, now).value.0;
      && NoRepeats(rows)
      && (forall p :: ProjectRow(p) in rows <==> p in r.projects)
      && (forall a, active :: AccountRow(a, active) in rows <==> active && a in r.accounts)
  {
    var projects, accounts := P.Distinct(r.projects), P.Distinct(r.accounts);
    DistinctHasNoRepeats(r.projects);
    DistinctHasNoRepeats(r.accounts);
    P.RowsAre(projects, accounts);
    forall id ensures id in projects <==> id in r.projects {
      P.DistinctSame(r.projects, id);
    }
    forall id ensures id in accounts <==> id in r.accounts {
      P.DistinctSame(r.accounts, id);
    }
  }
}
