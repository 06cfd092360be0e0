// Publishing a group schedule: the audience it grants at once, and how that differs from what
// re-resolution grants (backend/apps/schedules/audience_services.py, lines 71-150).
module Publication {
  import opened Results
  import opened Audience
  import opened Grants
  import opened GrantHistories

  // The selection, with the projects the actor may select now and the accounts eligible now.
  datatype Request = Request(
    actor: int,
    mayPublish: bool,
    group: bool,
    projects: seq<int>,
    accounts: seq<int>,
    eligibleProjects: set<int>,
    eligibleAccounts: set<int>)

  datatype Refusal = Forbidden | NotGroup | NothingSelected | IneligibleProject | IneligibleAccount

  // list(dict.fromkeys(ids))
  function Distinct(ids: seq<int>): seq<int> {
    if ids == [] then []
    else
      var before, id := Distinct(ids[..|ids| - 1]), ids[|ids| - 1];
      if id in before then before else before + [id]
  }

  lemma {:induction false} DistinctSame(ids: seq<int>, id: int)
    ensures id in Distinct(ids) <==> id in ids
  {
    if ids != [] {
      DistinctSame(ids[..|ids| - 1], id);
      assert ids == ids[..|ids| - 1] + [ids[|ids| - 1]];
    }
  }

  predicate AllIn(ids: seq<int>, known: set<int>) {
    forall i :: 0 <= i < |ids| ==> ids[i] in known
  }

  function Objection(r: Request): Option<Refusal> {
    if !r.mayPublish then Some(Forbidden)
    else if !r.group then Some(NotGroup)
    else if r.projects == [] && r.accounts == [] then Some(NothingSelected)
    else if !AllIn(r.projects, r.eligibleProjects) then Some(IneligibleProject)
    else if !AllIn(r.accounts, r.eligibleAccounts) then Some(IneligibleAccount)
    else None
  }

  // The audience rows of a selection; eligible accounts are active.
  function RowsOf(projects: seq<int>, accounts: seq<int>): seq<AudienceRow> {
    seq(|projects|, i requires 0 <= i < |projects| => ProjectRow(projects[i]))
    + seq(|accounts|, i requires 0 <= i < |accounts| => AccountRow(accounts[i], true))
  }

  // A membership counts on publication whatever the status of its user's account, and the actor is
  // left out, not the owner.
  predicate PublishesTo(actor: int, projects: seq<int>, m: Membership) {
    m.active && m.project in projects && m.user != actor
  }

  function PublishesOf(actor: int, projects: seq<int>): Membership -> bool {
    (m: Membership) => PublishesTo(actor, projects, m)
  }

  // The evidence dictionary of resolve_audience.
  function Announced(actor: int, projects: seq<int>, accounts: seq<int>, ms: seq<Membership>): (r: Resolution)
    ensures WellFormed(r)
  {
    WithAccounts(Joined(ms, PublishesOf(actor, projects)), accounts, actor)
  }

  // get_or_create an open grant for each of the first n recipients, and set its evidence.
  function Granted(g: Grant, now: int, res: Resolution, n: nat): Grant
    requires WellFormed(res) && n <= |res.order|
  {
    if Open(g) && g.recipient in res.order[..n] then g.(evidence := res.entries[g.recipient], resolvedAt := now) else g
  }

  function Published(grants: seq<Grant>, now: int, res: Resolution, n: nat): (r: seq<Grant>)
    requires WellFormed(res) && n <= |res.order|
    ensures |grants| <= |r| && forall i :: 0 <= i < |grants| ==> r[i] == Granted(grants[i], now, res, n)
  {
    seq(|grants|, i requires 0 <= i < |grants| => Granted(grants[i], now, res, n)) + Added(grants, now, res, n)
  }

  // resolve_audience: the new audience rows and the grants, or why it is refused.
  function Resolved(grants: seq<Grant>, r: Request, ms: seq<Membership>, now: int): Result<(seq<AudienceRow>, seq<Grant>), Refusal> {
    if Objection(r).Some? then Err(Objection(r).value)
    else
      var projects, accounts := Distinct(r.projects), Distinct(r.accounts);
      var res := Announced(r.actor, projects, accounts, ms);
      Ok((RowsOf(projects, accounts), Published(grants, now, res, |res.order|)))
  }

  // ---- Publication against re-resolution ------------------------------------------------

  // One user has one account, active or not; an eligible account is active.
  ghost predicate StatusAgrees(accounts: seq<int>, ms: seq<Membership>) {
    && (forall a, b :: a in ms && b in ms && a.user == b.user ==> a.userActive == b.userActive)
    && (forall m :: m in ms && m.user in accounts ==> m.userActive)
  }

  // The world in which re-resolution sees the item that was just published.
  function WorldOf(owner: int, projects: seq<int>, accounts: seq<int>, ms: seq<Membership>): World {
    World(owner, RowsOf(projects, accounts), ms)
  }

  lemma RowsAre(projects: seq<int>, accounts: seq<int>)
    ensures forall p :: ProjectRow(p) in RowsOf(projects, accounts) <==> p in projects
    ensures forall a :: AccountRow(a, true) in RowsOf(projects, accounts) <==> a in accounts
  {
    var rows := RowsOf(projects, accounts);
    forall p ensures ProjectRow(p) in rows <==> p in projects {
      if p in projects {
        var i :| 0 <= i < |projects| && projects[i] == p;
        assert rows[i] == ProjectRow(p);
      }
    }
    forall a ensures AccountRow(a, true) in rows <==> a in accounts {
      if a in accounts {
        var i :| 0 <= i < |accounts| && accounts[i] == a;
        assert rows[|projects| + i] == AccountRow(a, true);
      }
    }
  }

  lemma {:induction false} AccountsOfRows(projects: seq<int>, accounts: seq<int>)
    ensures ActiveAccounts(RowsOf(projects, accounts)) == accounts
  {
    var rows := RowsOf(projects, accounts);
    if accounts != [] {
      var front := accounts[..|accounts| - 1];
      AccountsOfRows(projects, front);
      assert rows[..|rows| - 1] == RowsOf(projects, front);
    } else if projects != [] {
      var front := projects[..|projects| - 1];
      AccountsOfRows(front, accounts);
      assert rows[..|rows| - 1] == RowsOf(front, accounts);
    }
  }

  // No active member of a selected project counts on one side only.
  predicate MembersCountAlike(actor: int, owner: int, projects: seq<int>, ms: seq<Membership>) {
    forall m :: m in ms && m.active && m.project in projects ==> (m.user != actor <==> m.userActive && m.user != owner)
  }

  // Neither does a selected account.
  predicate AccountsCountAlike(actor: int, owner: int, accounts: seq<int>) {
    actor == owner || (actor !in accounts && owner !in accounts)
  }

  lemma {:induction false} SameJoined(ms: seq<Membership>, a: Membership -> bool, b: Membership -> bool)
    requires forall m :: m in ms ==> a(m) == b(m)
    ensures Joined(ms, a) == Joined(ms, b)
  {
    if ms != [] {
      SameJoined(ms[..|ms| - 1], a, b);
    }
  }

  lemma {:induction false} SkipsNobody(base: Resolution, accounts: seq<int>, a: int, b: int)
    requires WellFormed(base) && a !in accounts && b !in accounts
    ensures WithAccounts(base, accounts, a) == WithAccounts(base, accounts, b)
  {
    if accounts != [] {
      SkipsNobody(base, accounts[..|accounts| - 1], a, b);
    }
  }

  lemma AlikeIsSame(actor: int, owner: int, projects: seq<int>, accounts: seq<int>, ms: seq<Membership>)
    requires MembersCountAlike(actor, owner, projects, ms) && AccountsCountAlike(actor, owner, accounts)
    ensures Announced(actor, projects, accounts, ms) == Gathered(WorldOf(owner, projects, accounts, ms))
  {
    var w := WorldOf(owner, projects, accounts, ms);
    RowsAre(projects, accounts);
    AccountsOfRows(projects, accounts);
    forall m | m in ms ensures PublishesOf(actor, projects)(m) == JoinsOf(w)(m) {
      assert PublishesTo(actor, projects, m) == JoinsThrough(w, m);
    }
    SameJoined(ms, PublishesOf(actor, projects), JoinsOf(w));
    if actor != owner {
      SkipsNobody(Joined(ms, JoinsOf(w)), accounts, actor, owner);
    }
  }

  // A membership of a selected project shows in the evidence of publication unless it is the actor's,
  // and in that of re-resolution unless it is the owner's or its account is not active.
  lemma MemberShows(actor: int, owner: int, projects: seq<int>, accounts: seq<int>, ms: seq<Membership>, m: Membership)
    requires StatusAgrees(accounts, ms) && m in ms && m.active && m.project in projects
    ensures m.project in Entry(Announced(actor, projects, accounts, ms).entries, m.user).projects <==> m.user != actor
    ensures m.project in Entry(Gathered(WorldOf(owner, projects, accounts, ms)).entries, m.user).projects <==>
      m.userActive && m.user != owner
  {
    var w := WorldOf(owner, projects, accounts, ms);
    var publishes := PublishesOf(actor, projects);
    RowsAre(projects, accounts);
    JoinedProjects(ms, publishes, m.user, m.project);
    AccountsAdd(Joined(ms, publishes), accounts, actor, m.user);
    assert publishes(m) <==> m.user != actor;
    EntryIsExact(w, m.user);
    assert JoinsThrough(w, m) <==> m.userActive && m.user != owner;
  }

  lemma AccountShows(actor: int, owner: int, projects: seq<int>, accounts: seq<int>, ms: seq<Membership>, a: int)
    requires a in accounts
    ensures FromAccount in Entry(Announced(actor, projects, accounts, ms).entries, a).types <==> a != actor
    ensures FromAccount in Entry(Gathered(WorldOf(owner, projects, accounts, ms)).entries, a).types <==> a != owner
  {
    var w := WorldOf(owner, projects, accounts, ms);
    var publishes := Joined(ms, PublishesOf(actor, projects));
    var joins := Joined(ms, JoinsOf(w));
    if a in publishes.entries { JoinedTypes(ms, PublishesOf(actor, projects), a); }
    if a in joins.entries { JoinedTypes(ms, JoinsOf(w), a); }
    AccountsAdd(publishes, accounts, actor, a);
    AccountsOfRows(projects, accounts);
    AccountsAdd(joins, accounts, owner, a);
  }

  // The grants of a fresh item, one for each recipient in order.
  lemma {:induction false} FreshGrants(now: int, res: Resolution, n: nat)
    requires WellFormed(res) && n <= |res.order|
    ensures |Added([], now, res, n)| == n
    ensures forall i :: 0 <= i < n ==>
      && res.order[i] in res.entries
      && Added([], now, res, n)[i] == Grant(res.order[i], now, None, res.entries[res.order[i]], now)
  {
    if n > 0 {
      FreshGrants(now, res, n - 1);
    }
  }

  lemma SameGrantsSameEvidence(now: int, a: Resolution, b: Resolution)
    requires WellFormed(a) && WellFormed(b)
    requires Added([], now, a, |a.order|) == Added([], now, b, |b.order|)
    ensures a.entries == b.entries
  {
    FreshGrants(now, a, |a.order|);
    FreshGrants(now, b, |b.order|);
    assert a.order == b.order by {
      forall i | 0 <= i < |a.order| ensures a.order[i] == b.order[i] {
        assert Added([], now, a, |a.order|)[i].recipient == a.order[i];
      }
    }
    forall u ensures u in a.entries <==> u in b.entries {
      assert u in a.order <==> u in b.order;
    }
    forall u | u in a.entries ensures a.entries[u] == b.entries[u] {
      var i :| 0 <= i < |a.order| && a.order[i] == u;
      assert Added([], now, a, |a.order|)[i].evidence == a.entries[u];
    }
  }

  lemma SameEvidenceIsAlike(actor: int, owner: int, projects: seq<int>, accounts: seq<int>, ms: seq<Membership>)
    requires StatusAgrees(accounts, ms)
    requires Announced(actor, projects, accounts, ms).entries == Gathered(WorldOf(owner, projects, accounts, ms)).entries
    ensures MembersCountAlike(actor, owner, projects, ms) && AccountsCountAlike(actor, owner, accounts)
  {
    forall m | m in ms && m.active && m.project in projects ensures m.user != actor <==> m.userActive && m.user != owner {
      MemberShows(actor, owner, projects, accounts, ms, m);
    }
    forall a | a in accounts ensures a != actor <==> a != owner {
      AccountShows(actor, owner, projects, accounts, ms, a);
    }
  }

  // Publishing a fresh item grants what a first re-resolution of it would, exactly when no active
  // member of a selected project and no selected account counts on one side only.
  lemma PublicationIsFirstRoundIff(actor: int, owner: int, projects: seq<int>, accounts: seq<int>, ms: seq<Membership>, now: int)
    requires StatusAgrees(accounts, ms)
    ensures var published, gathered := Announced(actor, projects, accounts, ms), Gathered(WorldOf(owner, projects, accounts, ms));
      Published([], now, published, |published.order|) == Reresolved([], now, gathered) <==>
      MembersCountAlike(actor, owner, projects, ms) && AccountsCountAlike(actor, owner, accounts)
  {
    var published, gathered := Announced(actor, projects, accounts, ms), Gathered(WorldOf(owner, projects, accounts, ms));
    if MembersCountAlike(actor, owner, projects, ms) && AccountsCountAlike(actor, owner, accounts) {
      AlikeIsSame(actor, owner, projects, accounts, ms);
    }
    if Published([], now, published, |published.order|) == Reresolved([], now, gathered) {
      assert Published([], now, published, |published.order|) == Added([], now, published, |published.order|);
      assert Reresolved([], now, gathered) == Added([], now, gathered, |gathered.order|);
      SameGrantsSameEvidence(now, published, gathered);
      SameEvidenceIsAlike(actor, owner, projects, accounts, ms);
    }
  }

  // The services publish as the owner. Then the two agree exactly when every other active member of
  // the selected projects has an active account.
  lemma OwnersPublicationIff(owner: int, projects: seq<int>, accounts: seq<int>, ms: seq<Membership>, now: int)
    requires StatusAgrees(accounts, ms)
    ensures var published, gathered := Announced(owner, projects, accounts, ms), Gathered(WorldOf(owner, projects, accounts, ms));
      Published([], now, published, |published.order|) == Reresolved([], now, gathered) <==>
      forall m :: m in ms && m.active && m.project in projects && m.user != owner ==> m.userActive
  {
    PublicationIsFirstRoundIff(owner, owner, projects, accounts, ms, now);
  }

  // Who a publication grants.
  ghost predicate InPublication(actor: int, projects: seq<int>, accounts: seq<int>, ms: seq<Membership>, user: int) {
    user != actor && (user in accounts || exists m :: m in ms && m.user == user && m.active && m.project in projects)
  }

  lemma AnnouncedIsPublication(actor: int, projects: seq<int>, accounts: seq<int>, ms: seq<Membership>, user: int)
    ensures user in Announced(actor, projects, accounts, ms).entries <==> InPublication(actor, projects, accounts, ms, user)
  {
    var publishes := PublishesOf(actor, projects);
    var members := Joined(ms, publishes);
    AccountsAdd(members, accounts, actor, user);
    if user in members.entries {
      JoinedTypes(ms, publishes, user);
      var ps := members.entries[user].projects;
      var p :| p in ps;
      JoinedProjects(ms, publishes, user, p);
    }
    if m :| m in ms && m.user == user && m.active && m.project in projects {
      JoinedProjects(ms, publishes, user, m.project);
      assert publishes(m) <==> user != actor;
    }
  }

  // As-of queries over a publication and the rounds after it: until the first round a grant means
  // being published to, and from then on membership of the audience of the latest round.
  lemma PublishedAsOf(h: seq<Round>, actor: int, projects: seq<int>, accounts: seq<int>, ms: seq<Membership>,
                      worlds: seq<World>, user: int, t: int, k: nat)
    requires Increasing(h) && |worlds| == |h| && k < |h|
    requires h[0].res == Announced(actor, projects, accounts, ms)
    requires forall i :: 0 < i < |h| ==> h[i].res == Gathered(worlds[i])
    requires h[k].at <= t && (k + 1 < |h| ==> t < h[k + 1].at)
    ensures Holds(Replay(h), user, t) <==>
      if k == 0 then InPublication(actor, projects, accounts, ms, user) else InAudience(worlds[k], user)
  {
    AsOfAgrees(h, user, t);
    LatestRound(h, t, k);
    if k == 0 {
      AnnouncedIsPublication(actor, projects, accounts, ms, user);
    } else {
      EntryIsExact(worlds[k], user);
    }
  }

  // A publication and one round after it.
  lemma HeldUntilNext(now: int, later: int, a: Resolution, b: Resolution, user: int, t: int)
    requires WellFormed(a) && WellFormed(b) && now < later && now <= t
    ensures var grants := Published([], now, a, |a.order|);
      && (Holds(grants, user, t) <==> user in a.entries)
      && (Holds(Reresolved(grants, later, b), user, t) <==> user in (if t < later then a.entries else b.entries))
  {
    var first, second := Round(now, a), Round(later, b);
    assert [first][..0] == [] && [first, second][..1] == [first];
    assert Published([], now, a, |a.order|) == Reresolved([], now, a) == Replay([first]);
    AsOfAgrees([first], user, t);
    AsOfAgrees([first, second], user, t);
  }

  // A suspended member of a selected project is granted by the owner's publication, belongs to no
  // audience, and loses the grant at the first round that finds the account still suspended.
  lemma SuspendedMemberIsGranted(owner: int, projects: seq<int>, accounts: seq<int>, ms: seq<Membership>, m: Membership,
                                 now: int, later: int, t: int)
    requires StatusAgrees(accounts, ms) && now < later && now <= t
    requires m in ms && m.active && !m.userActive && m.project in projects && m.user != owner
    ensures var published, w := Announced(owner, projects, accounts, ms), WorldOf(owner, projects, accounts, ms);
      var grants := Published([], now, published, |published.order|);
      && !InAudience(w, m.user)
      && Holds(grants, m.user, t)
      && (Holds(Reresolved(grants, later, Gathered(w)), m.user, t) <==> t < later)
  {
    var w := WorldOf(owner, projects, accounts, ms);
    RowsAre(projects, accounts);
    AnnouncedIsPublication(owner, projects, accounts, ms, m.user);
    assert !InAudience(w, m.user) by {
      assert forall n :: n in ms && n.user == m.user ==> !JoinsThrough(w, n);
    }
    EntryIsExact(w, m.user);
    HeldUntilNext(now, later, Announced(owner, projects, accounts, ms), Gathered(w), m.user, t);
  }

  // For example: user 2 is suspended and still a member of project 7.
  lemma SuspendedMemberExample()
    ensures exists ms: seq<Membership> ::
      && StatusAgrees([], ms)
      && Published([], 0, Announced(1, [7], [], ms), |Announced(1, [7], [], ms).order|) != Reresolved([], 0, Gathered(WorldOf(1, [7], [], ms)))
  {
    var ms := [Membership(2, 7, true, false)];
    assert ms[0] in ms;
    OwnersPublicationIff(1, [7], [], ms, 0);
  }
}
