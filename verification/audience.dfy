// Who a group schedule is addressed to, and the table of dated grants that re-resolution keeps
// (backend/apps/schedules/audience_services.py, backend/apps/schedules/permissions.py).
module Audience {
  import opened Results
  import opened Sequences

  datatype Source = FromProject | FromAccount

  datatype Evidence = Evidence(types: set<Source>, projects: set<int>)

  datatype AudienceRow = ProjectRow(project: int) | AccountRow(account: int, active: bool)

  datatype Membership = Membership(user: int, project: int, active: bool, userActive: bool)

  // What one resolution reads: the owner, the selected audience rows and the memberships.
  datatype World = World(owner: int, rows: seq<AudienceRow>, memberships: seq<Membership>)

  // The evidence dictionary with its insertion order.
  datatype Resolution = Resolution(order: seq<int>, entries: map<int, Evidence>)

  datatype Grant = Grant(recipient: int, validFrom: int, validUntil: Option<int>, evidence: Evidence, resolvedAt: int)

  // ---- Who belongs to the audience ------------------------------------------------------

  predicate JoinsThrough(w: World, m: Membership) {
    m.active && m.userActive && m.user != w.owner && ProjectRow(m.project) in w.rows
  }

  ghost predicate ByProject(w: World, user: int, project: int) {
    exists m :: m in w.memberships && JoinsThrough(w, m) && m.user == user && m.project == project
  }

  predicate ByAccount(w: World, user: int) {
    user != w.owner && AccountRow(user, true) in w.rows
  }

  ghost predicate InAudience(w: World, user: int) {
    ByAccount(w, user) || exists p :: ByProject(w, user, p)
  }

  ghost predicate WellFormed(res: Resolution) {
    NoRepeats(res.order) && forall r :: r in res.order <==> r in res.entries
  }

  // The resolution names exactly the audience, with exact evidence for each recipient.
  ghost predicate Resolves(w: World, res: Resolution) {
    && WellFormed(res)
    && (forall u :: u in res.entries <==> InAudience(w, u))
    && (forall u :: u in res.entries ==>
         && (FromAccount in res.entries[u].types <==> ByAccount(w, u))
         && (FromProject in res.entries[u].types <==> res.entries[u].projects != {}))
    && (forall u, p :: u in res.entries ==> (p in res.entries[u].projects <==> ByProject(w, u, p)))
  }

  function Entry(entries: map<int, Evidence>, user: int): Evidence {
    if user in entries then entries[user] else Evidence({}, {})
  }

  // evidence.setdefault(user, ...), then the additions to its two sets.
  function Put(res: Resolution, user: int, e: Evidence): (r: Resolution)
    requires WellFormed(res)
    ensures WellFormed(r)
  {
    Resolution(if user in res.entries then res.order else res.order + [user], res.entries[user := e])
  }

  // ---- The two loops --------------------------------------------------------------------

  function AddProject(res: Resolution, user: int, project: int): (r: Resolution)
    requires WellFormed(res)
    ensures WellFormed(r)
  {
    var e := Entry(res.entries, user);
    Put(res, user, Evidence(e.types + {FromProject}, e.projects + {project}))
  }

  function AddAccount(res: Resolution, account: int): (r: Resolution)
    requires WellFormed(res)
    ensures WellFormed(r)
  {
    var e := Entry(res.entries, account);
    Put(res, account, Evidence(e.types + {FromAccount}, e.projects))
  }

  // The evidence of the memberships that join, in their order.
  function Joined(ms: seq<Membership>, joins: Membership -> bool): (r: Resolution)
    ensures WellFormed(r)
  {
    if ms == [] then Resolution([], map[])
    else
      var before, m := Joined(ms[..|ms| - 1], joins), ms[|ms| - 1];
      if joins(m) then AddProject(before, m.user, m.project) else before
  }

  // Then the selected accounts, all but one.
  function WithAccounts(base: Resolution, accounts: seq<int>, skip: int): (r: Resolution)
    requires WellFormed(base)
    ensures WellFormed(r)
  {
    if accounts == [] then base
    else
      var before, account := WithAccounts(base, accounts[..|accounts| - 1], skip), accounts[|accounts| - 1];
      if account == skip then before else AddAccount(before, account)
  }

  // The account_ids of reresolve_audience.
  function ActiveAccounts(rows: seq<AudienceRow>): seq<int> {
    if rows == [] then []
    else
      var row := rows[|rows| - 1];
      ActiveAccounts(rows[..|rows| - 1]) + if row.AccountRow? && row.active then [row.account] else []
  }

  function JoinsOf(w: World): Membership -> bool { (m: Membership) => JoinsThrough(w, m) }

  // The evidence dictionary of reresolve_audience.
  function Gathered(w: World): (r: Resolution)
    ensures WellFormed(r)
  {
    WithAccounts(Joined(w.memberships, JoinsOf(w)), ActiveAccounts(w.rows), w.owner)
  }

  // ---- What they collect ----------------------------------------------------------------

  // Some membership that joins brings the user in through the project.
  ghost predicate Brings(ms: seq<Membership>, joins: Membership -> bool, user: int, project: int) {
    exists m :: m in ms && joins(m) && m.user == user && m.project == project
  }

  lemma BringsNext(ms: seq<Membership>, joins: Membership -> bool, user: int, project: int)
    requires ms != []
    ensures var m := ms[|ms| - 1];
      Brings(ms, joins, user, project) <==>
      Brings(ms[..|ms| - 1], joins, user, project) || (joins(m) && m.user == user && m.project == project)
  {
    assert ms == ms[..|ms| - 1] + [ms[|ms| - 1]];
    if Brings(ms, joins, user, project) {
      var m :| m in ms && joins(m) && m.user == user && m.project == project;
      assert m in ms[..|ms| - 1] || m == ms[|ms| - 1];
    }
  }

  // The projects in a recipient's evidence are those of the memberships that join.
  lemma {:induction false} JoinedProjects(ms: seq<Membership>, joins: Membership -> bool, user: int, project: int)
    ensures project in Entry(Joined(ms, joins).entries, user).projects <==> Brings(ms, joins, user, project)
  {
    if ms != [] {
      JoinedProjects(ms[..|ms| - 1], joins, user, project);
      BringsNext(ms, joins, user, project);
    }
  }

  lemma {:induction false} JoinedTypes(ms: seq<Membership>, joins: Membership -> bool, user: int)
    requires user in Joined(ms, joins).entries
    ensures var e := Joined(ms, joins).entries[user];
      e.types == {FromProject} && exists p :: p in e.projects
  {
    var before, m := Joined(ms[..|ms| - 1], joins), ms[|ms| - 1];
    if user in before.entries {
      JoinedTypes(ms[..|ms| - 1], joins, user);
    }
    if joins(m) && m.user == user {
      assert m.project in Joined(ms, joins).entries[user].projects;
    }
  }

  // What the second loop does to one user's entry.
  lemma {:induction false} AccountsAdd(base: Resolution, accounts: seq<int>, skip: int, user: int)
    requires WellFormed(base)
    ensures var r, listed := WithAccounts(base, accounts, skip), user in accounts && user != skip;
      && (user in r.entries <==> user in base.entries || listed)
      && Entry(r.entries, user).projects == Entry(base.entries, user).projects
      && Entry(r.entries, user).types == Entry(base.entries, user).types + if listed then {FromAccount} else {}
  {
    if accounts != [] {
      AccountsAdd(base, accounts[..|accounts| - 1], skip, user);
      assert accounts == accounts[..|accounts| - 1] + [accounts[|accounts| - 1]];
    }
  }

  lemma {:induction false} ActiveAccountsAre(rows: seq<AudienceRow>, user: int)
    ensures user in ActiveAccounts(rows) <==> AccountRow(user, true) in rows
  {
    if rows != [] {
      ActiveAccountsAre(rows[..|rows| - 1], user);
      assert rows == rows[..|rows| - 1] + [rows[|rows| - 1]];
    }
  }

  // A membership that joins through the world, and the project it joins through.
  lemma BringsIsByProject(w: World, user: int, project: int)
    ensures Brings(w.memberships, JoinsOf(w), user, project) <==> ByProject(w, user, project)
  {
    if ByProject(w, user, project) {
      var m :| m in w.memberships && JoinsThrough(w, m) && m.user == user && m.project == project;
      assert JoinsOf(w)(m);
    }
    if Brings(w.memberships, JoinsOf(w), user, project) {
      var m :| m in w.memberships && JoinsOf(w)(m) && m.user == user && m.project == project;
      assert JoinsThrough(w, m);
    }
  }

  lemma EntryIsExact(w: World, user: int)
    ensures user in Gathered(w).entries <==> InAudience(w, user)
    ensures forall p :: p in Entry(Gathered(w).entries, user).projects <==> ByProject(w, user, p)
    ensures user in Gathered(w).entries ==>
      && (FromAccount in Gathered(w).entries[user].types <==> ByAccount(w, user))
      && (FromProject in Gathered(w).entries[user].types <==> Gathered(w).entries[user].projects != {})
  {
    var members := Joined(w.memberships, JoinsOf(w));
    AccountsAdd(members, ActiveAccounts(w.rows), w.owner, user);
    ActiveAccountsAre(w.rows, user);
    forall p ensures p in Entry(members.entries, user).projects <==> ByProject(w, user, p) {
      JoinedProjects(w.memberships, JoinsOf(w), user, p);
      BringsIsByProject(w, user, p);
    }
    var ps := Entry(members.entries, user).projects;
    if user in members.entries {
      JoinedTypes(w.memberships, JoinsOf(w), user);
      var p :| p in ps;
      assert ByProject(w, user, p);
    }
  }

  // Re-resolution gathers exactly the audience.
  lemma GatheredResolves(w: World)
    ensures Resolves(w, Gathered(w))
  {
    forall u ensures u in Gathered(w).entries <==> InAudience(w, u) {
      EntryIsExact(w, u);
    }
    forall u | u in Gathered(w).entries
      ensures (FromAccount in Gathered(w).entries[u].types <==> ByAccount(w, u))
      ensures FromProject in Gathered(w).entries[u].types <==> Gathered(w).entries[u].projects != {}
    {
      EntryIsExact(w, u);
    }
    forall u, p | u in Gathered(w).entries ensures p in Gathered(w).entries[u].projects <==> ByProject(w, u, p) {
      EntryIsExact(w, u);
    }
  }

  // ---- The loops as they run ------------------------------------------------------------

  // The first loop of reresolve_audience.
  method ReadMemberships(w: World) returns (res: Resolution)
    ensures res == Joined(w.memberships, JoinsOf(w))
    ensures forall u, p :: p in Entry(res.entries, u).projects <==> ByProject(w, u, p)
  {
    res := Resolution([], map[]);
    for i := 0 to |w.memberships|
      invariant res == Joined(w.memberships[..i], JoinsOf(w))
    {
      assert w.memberships[..i + 1][..i] == w.memberships[..i];
      var m := w.memberships[i];
      if m.active && m.userActive && ProjectRow(m.project) in w.rows && m.user != w.owner {
        res := AddProject(res, m.user, m.project);
      }
    }
    assert w.memberships[..|w.memberships|] == w.memberships;
    forall u, p ensures p in Entry(res.entries, u).projects <==> ByProject(w, u, p) {
      JoinedProjects(w.memberships, JoinsOf(w), u, p);
      BringsIsByProject(w, u, p);
    }
  }

  // The account_ids comprehension and the second loop.
  method ReadAccounts(w: World, members: Resolution) returns (res: Resolution)
    requires WellFormed(members)
    ensures res == WithAccounts(members, ActiveAccounts(w.rows), w.owner)
    ensures forall u :: u in res.entries <==> u in members.entries || ByAccount(w, u)
  {
    var accounts: seq<int> := [];
    for i := 0 to |w.rows|
      invariant accounts == ActiveAccounts(w.rows[..i])
    {
      assert w.rows[..i + 1][..i] == w.rows[..i];
      var row := w.rows[i];
      if row.AccountRow? && row.active {
        accounts := accounts + [row.account];
      }
    }
    assert w.rows[..|w.rows|] == w.rows;
    res := AddAccounts(members, accounts, w.owner);
    forall u ensures u in res.entries <==> u in members.entries || ByAccount(w, u) {
      AccountsAdd(members, accounts, w.owner, u);
      ActiveAccountsAre(w.rows, u);
    }
  }

  method AddAccounts(base: Resolution, accounts: seq<int>, skip: int) returns (res: Resolution)
    requires WellFormed(base)
    ensures res == WithAccounts(base, accounts, skip)
  {
    res := base;
    for i := 0 to |accounts|
      invariant res == WithAccounts(base, accounts[..i], skip)
    {
      assert accounts[..i + 1][..i] == accounts[..i];
      if accounts[i] != skip {
        res := AddAccount(res, accounts[i]);
      }
    }
    assert accounts[..|accounts|] == accounts;
  }

  method GatherEvidence(w: World) returns (res: Resolution)
    ensures res == Gathered(w) && Resolves(w, res)
  {
    var members := ReadMemberships(w);
    res := ReadAccounts(w, members);
    GatheredResolves(w);
  }
}
