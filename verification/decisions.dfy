// Published decisions and their supersession chains
// (backend/apps/projects/decision_risk_services.py, lines 84-190).
module Decisions {
  import opened Results

  datatype Status = Current | Superseded

  // The primary key of a decision is its position: published decisions cannot be deleted.
  datatype Decision = Decision(project: int, supersedes: Option<nat>, status: Status, key: string)

  datatype Link = Link(targetType: string, targetId: string)

  datatype Refusal = InvalidOptions | OwnerNotEligible | NotCurrent | HasSuccessor | TooManyLinks | DuplicateLink | UnknownLink

  datatype Request = Request(
    project: int,
    key: string,
    options: seq<string>,
    ownerEligible: bool,
    supersedes: Option<nat>,
    links: seq<Link>,
    knownLinks: set<Link>) // link targets that belong to the project

  function Strip(s: string): string {
    StripEnd(StripStart(s))
  }

  // What Python's strip() takes away.
  predicate Blank(c: char) {
    var code := c as int;
    || 9 <= code <= 13 || 28 <= code <= 32 || code == 133 || code == 160 || code == 5760 || 8192 <= code <= 8202
    || code == 8232 || code == 8233 || code == 8239 || code == 8287 || code == 12288
  }

  function StripStart(s: string): string {
    if s != [] && Blank(s[0]) then StripStart(s[1..]) else s
  }

  function StripEnd(s: string): string {
    if s != [] && Blank(s[|s| - 1]) then StripEnd(s[..|s| - 1]) else s
  }

  // _validate_decision_payload
  predicate OptionsValid(options: seq<string>) {
    1 <= |options| <= 20 && forall i :: 0 <= i < |options| ==> Strip(options[i]) != "" && |options[i]| <= 1000
  }

  // The first reason _create_links has for refusing the links.
  function LinkRefusal(links: seq<Link>, known: set<Link>, n: nat): Option<Refusal>
    requires n <= |links|
  {
    if n == 0 then None
    else if LinkRefusal(links, known, n - 1).Some? then LinkRefusal(links, known, n - 1)
    else if links[n - 1] !in known then Some(UnknownLink)
    else if links[n - 1] in links[..n - 1] then Some(DuplicateLink)
    else None
  }

  function LinksRefusal(links: seq<Link>, known: set<Link>): Option<Refusal> {
    if |links| > 100 then Some(TooManyLinks) else LinkRefusal(links, known, |links|)
  }

  // Links are accepted exactly when there are at most a hundred, all known and all different.
  lemma {:induction false} LinksAccepted(links: seq<Link>, known: set<Link>, n: nat)
    requires n <= |links|
    ensures LinkRefusal(links, known, n).None? <==>
      (forall i :: 0 <= i < n ==> links[i] in known) && (forall i, j :: 0 <= i < j < n ==> links[i] != links[j])
  {
    if n > 0 {
      LinksAccepted(links, known, n - 1);
      if links[n - 1] in links[..n - 1] {
        var i :| 0 <= i < n - 1 && links[..n - 1][i] == links[n - 1];
        assert links[i] == links[n - 1];
      } else {
        forall i | 0 <= i < n - 1 ensures links[i] != links[n - 1] {
          assert links[..n - 1][i] == links[i];
        }
      }
    }
  }

  // Links that _create_links accepts.
  predicate LinksHold(links: seq<Link>, known: set<Link>) {
    && |links| <= 100
    && (forall i :: 0 <= i < |links| ==> links[i] in known)
    && (forall i, j :: 0 <= i < j < |links| ==> links[i] != links[j])
  }

  lemma LinksHoldIff(links: seq<Link>, known: set<Link>)
    ensures LinksRefusal(links, known).None? <==> LinksHold(links, known)
  {
    LinksAccepted(links, known, |links|);
  }

  predicate KeyUsed(ds: seq<Decision>, project: int, key: string) {
    exists i :: 0 <= i < |ds| && ds[i].project == project && ds[i].key == key
  }

  // The decision that supersedes i, if any.
  function Successor(ds: seq<Decision>, i: nat): Option<nat> {
    SuccessorBelow(ds, i, |ds|)
  }

  function SuccessorBelow(ds: seq<Decision>, i: nat, n: nat): (r: Option<nat>)
    requires n <= |ds|
    ensures r.Some? ==> r.value < n && ds[r.value].supersedes == Some(i)
    ensures r.None? ==> forall j :: 0 <= j < n ==> ds[j].supersedes != Some(i)
  {
    if n == 0 then None
    else if ds[n - 1].supersedes == Some(i) then Some(n - 1)
    else SuccessorBelow(ds, i, n - 1)
  }

  // publish_decision; a retry with a used key returns the existing decision and changes nothing.
  function Publish(ds: seq<Decision>, r: Request): Result<seq<Decision>, Refusal> {
    if r.key != "" && KeyUsed(ds, r.project, r.key) then Ok(ds)
    else if !OptionsValid(r.options) then Err(InvalidOptions)
    else if !r.ownerEligible then Err(OwnerNotEligible)
    else if r.supersedes.Some? && !(r.supersedes.value < |ds| && ds[r.supersedes.value].project == r.project
                                    && ds[r.supersedes.value].status.Current?) then Err(NotCurrent)
    else if r.supersedes.Some? && Successor(ds, r.supersedes.value).Some? then Err(HasSuccessor)
    else if LinksRefusal(r.links, r.knownLinks).Some? then Err(LinksRefusal(r.links, r.knownLinks).value)
    else
      var marked := if r.supersedes.Some? then ds[r.supersedes.value := ds[r.supersedes.value].(status := Superseded)] else ds;
      Ok(marked + [Decision(r.project, r.supersedes, Current, r.key)])
  }

  function Step(ds: seq<Decision>, r: Request): seq<Decision> {
    var reply := Publish(ds, r);
    if reply.Ok? then reply.value else ds
  }

  function Run(rs: seq<Request>): seq<Decision> {
    if rs == [] then [] else Step(Run(rs[..|rs| - 1]), rs[|rs| - 1])
  }

  // ---- What every publication keeps -----------------------------------------------------

  // Links point back in time and stay in one project.
  ghost predicate LinksBack(ds: seq<Decision>) {
    forall i :: 0 <= i < |ds| && ds[i].supersedes.Some? ==>
      ds[i].supersedes.value < i && ds[ds[i].supersedes.value].project == ds[i].project
  }

  // No decision is superseded twice (the one-to-one column).
  ghost predicate LinksOnce(ds: seq<Decision>) {
    forall i, j :: 0 <= i < j < |ds| && ds[i].supersedes.Some? ==> ds[i].supersedes != ds[j].supersedes
  }

  // Superseded means having a successor.
  ghost predicate StatusTracks(ds: seq<Decision>) {
    forall i :: 0 <= i < |ds| ==> (ds[i].status.Superseded? <==> Successor(ds, i).Some?)
  }

  ghost predicate Chained(ds: seq<Decision>) {
    LinksBack(ds) && LinksOnce(ds) && StatusTracks(ds)
  }

  lemma SuccessorIs(ds: seq<Decision>, i: nat, j: nat)
    requires Chained(ds) && j < |ds| && ds[j].supersedes == Some(i)
    ensures Successor(ds, i) == Some(j)
  {
    assert Successor(ds, i).Some?;
  }

  // The effect of a publication on the table.
  ghost predicate Appends(ds: seq<Decision>, after: seq<Decision>, supersedes: Option<nat>, project: int) {
    && |after| == |ds| + 1
    && after[|ds|].supersedes == supersedes && after[|ds|].status.Current? && after[|ds|].project == project
    && (supersedes.Some? ==>
         && supersedes.value < |ds| && ds[supersedes.value].status.Current?
         && ds[supersedes.value].project == project && after[supersedes.value].status.Superseded?)
    && (forall i :: 0 <= i < |ds| ==> after[i].supersedes == ds[i].supersedes && after[i].project == ds[i].project)
    && (forall i :: 0 <= i < |ds| && supersedes != Some(i) ==> after[i] == ds[i])
  }

  lemma PublishAppends(ds: seq<Decision>, r: Request)
    requires Publish(ds, r).Ok?
    ensures Step(ds, r) == ds || Appends(ds, Step(ds, r), r.supersedes, r.project)
  {
  }

  lemma {:induction false} SuccessorBelowSame(ds: seq<Decision>, after: seq<Decision>, i: nat, n: nat)
    requires n <= |ds| <= |after|
    requires forall j :: 0 <= j < n ==> after[j].supersedes == ds[j].supersedes
    ensures SuccessorBelow(after, i, n) == SuccessorBelow(ds, i, n)
  {
    if n > 0 {
      SuccessorBelowSame(ds, after, i, n - 1);
    }
  }

  lemma SuccessorAfter(ds: seq<Decision>, after: seq<Decision>, supersedes: Option<nat>, project: int, i: nat)
    requires Appends(ds, after, supersedes, project)
    ensures Successor(after, i) == if supersedes == Some(i) then Some(|ds|) else Successor(ds, i)
  {
    SuccessorBelowSame(ds, after, i, |ds|);
  }

  lemma AppendKeepsBack(ds: seq<Decision>, after: seq<Decision>, supersedes: Option<nat>, project: int)
    requires LinksBack(ds) && Appends(ds, after, supersedes, project)
    ensures LinksBack(after)
  {
    forall i | 0 <= i < |after| && after[i].supersedes.Some?
      ensures after[i].supersedes.value < i && after[after[i].supersedes.value].project == after[i].project
    {
      if i < |ds| {
        assert after[i].supersedes == ds[i].supersedes;
      }
    }
  }

  // Only a decision without a successor gets one.
  lemma AppendKeepsOnce(ds: seq<Decision>, after: seq<Decision>, supersedes: Option<nat>, project: int)
    requires LinksOnce(ds) && Appends(ds, after, supersedes, project)
    requires supersedes.Some? ==> Successor(ds, supersedes.value).None?
    ensures LinksOnce(after)
  {
    forall i, j | 0 <= i < j < |after| && after[i].supersedes.Some?
      ensures after[i].supersedes != after[j].supersedes
    {
      assert after[i].supersedes == ds[i].supersedes;
      if j < |ds| {
        assert after[j].supersedes == ds[j].supersedes;
      }
    }
  }

  lemma AppendKeepsStatus(ds: seq<Decision>, after: seq<Decision>, supersedes: Option<nat>, project: int)
    requires Chained(ds) && Appends(ds, after, supersedes, project)
    ensures StatusTracks(after)
  {
    forall i | 0 <= i < |after| ensures after[i].status.Superseded? <==> Successor(after, i).Some? {
      SuccessorAfter(ds, after, supersedes, project, i);
      if i == |ds| {
        assert supersedes != Some(i);
        assert Successor(ds, i).None?;
      }
    }
  }

  lemma AppendKeepsChained(ds: seq<Decision>, after: seq<Decision>, supersedes: Option<nat>, project: int)
    requires Chained(ds) && Appends(ds, after, supersedes, project)
    ensures Chained(after)
  {
    AppendKeepsBack(ds, after, supersedes, project);
    AppendKeepsOnce(ds, after, supersedes, project);
    AppendKeepsStatus(ds, after, supersedes, project);
  }

  lemma {:induction false} RunsAreChained(rs: seq<Request>)
    ensures Chained(Run(rs))
  {
    if rs != [] {
      var ds, r := Run(rs[..|rs| - 1]), rs[|rs| - 1];
      RunsAreChained(rs[..|rs| - 1]);
      if Publish(ds, r).Ok? {
        PublishAppends(ds, r);
        if Step(ds, r) != ds {
          AppendKeepsChained(ds, Step(ds, r), r.supersedes, r.project);
        }
      }
    }
  }

  // In every reachable state a decision is SUPERSEDED exactly when one decision, and only one,
  // supersedes it.
  lemma SupersededMeansOneSuccessor(rs: seq<Request>, i: nat)
    requires i < |Run(rs)|
    ensures Run(rs)[i].status.Superseded? <==> exists j :: 0 <= j < |Run(rs)| && Run(rs)[j].supersedes == Some(i)
    ensures forall j, k | 0 <= j < |Run(rs)| && 0 <= k < |Run(rs)| ::
      Run(rs)[j].supersedes == Some(i) && Run(rs)[k].supersedes == Some(i) ==> j == k
  {
    var ds := Run(rs);
    RunsAreChained(rs);
    forall j | 0 <= j < |ds| && ds[j].supersedes == Some(i) ensures Successor(ds, i) == Some(j) {
      SuccessorIs(ds, i, j);
    }
  }

  // ---- Chains ---------------------------------------------------------------------------

  // Follow successors to the end of the chain.
  ghost function Tip(ds: seq<Decision>, i: nat): (t: nat)
    requires Chained(ds) && i < |ds|
    ensures t < |ds| && ds[t].status.Current? && ds[t].project == ds[i].project
    decreases |ds| - i
  {
    var s := Successor(ds, i);
    if s.None? then i else Tip(ds, s.value)
  }

  // Follow supersession links back to the first decision of the chain.
  ghost function Root(ds: seq<Decision>, i: nat): (r: nat)
    requires Chained(ds) && i < |ds|
    ensures r <= i && ds[r].supersedes.None? && ds[r].project == ds[i].project
    decreases i
  {
    if ds[i].supersedes.None? then i else Root(ds, ds[i].supersedes.value)
  }

  lemma {:induction false} TipKnowsRoot(ds: seq<Decision>, i: nat)
    requires Chained(ds) && i < |ds|
    ensures Root(ds, Tip(ds, i)) == Root(ds, i)
    decreases |ds| - i
  {
    var s := Successor(ds, i);
    if s.Some? {
      TipKnowsRoot(ds, s.value);
    }
  }

  lemma {:induction false} RootKnowsTip(ds: seq<Decision>, i: nat)
    requires Chained(ds) && i < |ds|
    ensures Tip(ds, Root(ds, i)) == Tip(ds, i)
    decreases i
  {
    if ds[i].supersedes.Some? {
      RootKnowsTip(ds, ds[i].supersedes.value);
      SuccessorIs(ds, ds[i].supersedes.value, i);
    }
  }

  // From any decision the chain ends in exactly one current decision, and first decisions and
  // current decisions correspond one to one.
  lemma ChainsEndOnce(ds: seq<Decision>, c: nat, r: nat)
    requires Chained(ds) && c < |ds| && r < |ds|
    requires ds[c].status.Current? && ds[r].supersedes.None?
    ensures Tip(ds, c) == c && Root(ds, r) == r
    ensures Tip(ds, r) == c <==> Root(ds, c) == r
  {
    TipKnowsRoot(ds, r);
    RootKnowsTip(ds, c);
  }

  // So in every project there are as many current decisions as chains.
  ghost function CurrentIn(ds: seq<Decision>, project: int): set<nat> {
    set i: nat | i < |ds| && ds[i].project == project && ds[i].status.Current?
  }

  ghost function RootsIn(ds: seq<Decision>, project: int): set<nat> {
    set i: nat | i < |ds| && ds[i].project == project && ds[i].supersedes.None?
  }

  lemma RootsAfter(ds: seq<Decision>, after: seq<Decision>, supersedes: Option<nat>, project: int, p: int)
    requires Appends(ds, after, supersedes, project)
    ensures RootsIn(after, p) == RootsIn(ds, p) + if p == project && supersedes.None? then {|ds|} else {}
  {
  }

  lemma CurrentAfter(ds: seq<Decision>, after: seq<Decision>, supersedes: Option<nat>, project: int, p: int)
    requires Appends(ds, after, supersedes, project)
    ensures CurrentIn(after, p) == (if supersedes.Some? then CurrentIn(ds, p) - {supersedes.value} else CurrentIn(ds, p))
                                   + if p == project then {|ds|} else {}
    ensures supersedes.Some? ==> (supersedes.value in CurrentIn(ds, p) <==> p == project)
    ensures |ds| !in CurrentIn(ds, p) && |ds| !in RootsIn(ds, p)
  {
  }

  lemma AppendKeepsCounts(ds: seq<Decision>, after: seq<Decision>, supersedes: Option<nat>, project: int, p: int)
    requires Appends(ds, after, supersedes, project) && |CurrentIn(ds, p)| == |RootsIn(ds, p)|
    ensures |CurrentIn(after, p)| == |RootsIn(after, p)|
  {
    RootsAfter(ds, after, supersedes, project, p);
    CurrentAfter(ds, after, supersedes, project, p);
    Balance(CurrentIn(ds, p), RootsIn(ds, p), |ds|, supersedes, p == project);
  }

  // Adding a chain adds one to both sets; extending a chain swaps one current decision.
  lemma Balance(current: set<nat>, roots: set<nat>, n: nat, supersedes: Option<nat>, here: bool)
    requires |current| == |roots| && n !in current && n !in roots
    requires supersedes.Some? ==> (supersedes.value in current <==> here)
    ensures var left := if supersedes.Some? then current - {supersedes.value} else current;
      |left + if here then {n} else {}| == |roots + if here && supersedes.None? then {n} else {}|
  {
    if supersedes.Some? && !here {
      assert current - {supersedes.value} == current;
    }
  }

  lemma {:induction false} AsManyCurrentAsChains(rs: seq<Request>, project: int)
    ensures |CurrentIn(Run(rs), project)| == |RootsIn(Run(rs), project)|
  {
    if rs == [] {
      assert CurrentIn([], project) == {} && RootsIn([], project) == {};
    } else {
      var ds, r := Run(rs[..|rs| - 1]), rs[|rs| - 1];
      AsManyCurrentAsChains(rs[..|rs| - 1], project);
      if Publish(ds, r).Ok? {
        PublishAppends(ds, r);
        if Step(ds, r) != ds {
          AppendKeepsCounts(ds, Step(ds, r), r.supersedes, r.project, project);
        }
      }
    }
  }

  // A retry with a used non-empty key changes nothing, whatever else it asks for; and a key
  // names at most one decision of a project.
  lemma {:induction false} KeysAreUnique(rs: seq<Request>, i: nat, j: nat)
    requires i < j < |Run(rs)|
    ensures Run(rs)[i].project == Run(rs)[j].project && Run(rs)[i].key != "" ==> Run(rs)[i].key != Run(rs)[j].key
  {
    var before, r := Run(rs[..|rs| - 1]), rs[|rs| - 1];
    if j < |before| {
      KeysAreUnique(rs[..|rs| - 1], i, j);
    }
  }

  lemma RetryChangesNothing(rs: seq<Request>, first: Request, again: Request)
    requires first.key != "" && again.key == first.key && again.project == first.project
    requires Publish(Run(rs), first).Ok?
    ensures Publish(Step(Run(rs), first), again) == Ok(Step(Run(rs), first))
  {
    var ds := Run(rs);
    var after := Step(ds, first);
    if !KeyUsed(ds, first.project, first.key) {
      assert after[|ds|].key == first.key && after[|ds|].project == first.project;
    }
  }

  // _create_links: every target known, none repeated.
  method CheckLinks(links: seq<Link>, known: set<Link>) returns (refusal: Option<Refusal>)
    ensures refusal == LinksRefusal(links, known)
  {
    if |links| > 100 { return Some(TooManyLinks); }
    var seen: set<Link> := {};
    for i := 0 to |links|
      invariant LinkRefusal(links, known, i) == None
      invariant forall l :: l in seen <==> l in links[..i]
    {
      assert links[..i + 1] == links[..i] + [links[i]];
      if links[i] !in known {
        KeepsRefusal(links, known, i + 1);
        return Some(UnknownLink);
      }
      if links[i] in seen {
        KeepsRefusal(links, known, i + 1);
        return Some(DuplicateLink);
      }
      seen := seen + {links[i]};
    }
    refusal := None;
  }

  // ---- The service ----------------------------------------------------------------------

  class DecisionTable {
    var decisions: seq<Decision>

    constructor ()
      ensures decisions == []
    {
      decisions := [];
    }

    method FindKey(project: int, key: string) returns (found: bool)
      ensures found <==> KeyUsed(decisions, project, key)
    {
      found := false;
      for i := 0 to |decisions|
        invariant found <==> exists k :: 0 <= k < i && decisions[k].project == project && decisions[k].key == key
      {
        if decisions[i].project == project && decisions[i].key == key {
          found := true;
        }
      }
    }

    // publish_decision and supersede_decision
    method PublishDecision(r: Request) returns (refusal: Option<Refusal>)
      modifies this
      ensures match Publish(old(decisions), r)
        case Ok(after) => refusal == None && decisions == after
        case Err(reason) => refusal == Some(reason) && decisions == old(decisions)
    {
      var used := FindKey(r.project, r.key);
      if r.key != "" && used { return None; }
      if !OptionsValid(r.options) { return Some(InvalidOptions); }
      if !r.ownerEligible { return Some(OwnerNotEligible); }
      if r.supersedes.Some? {
        var p := r.supersedes.value;
        if p >= |decisions| || decisions[p].project != r.project || !decisions[p].status.Current? {
          return Some(NotCurrent);
        }
        if Successor(decisions, p).Some? { return Some(HasSuccessor); }
      }
      refusal := CheckLinks(r.links, r.knownLinks);
      if refusal.Some? { return; }
      var created := Decision(r.project, r.supersedes, Current, r.key);
      if r.supersedes.Some? {
        var p := r.supersedes.value;
        decisions := decisions[p := decisions[p].(status := Superseded)];
      }
      decisions := decisions + [created];
    }
  }

  // The first refusal stands, whatever follows.
  lemma {:induction false} KeepsRefusal(links: seq<Link>, known: set<Link>, n: nat)
    requires n <= |links| && LinkRefusal(links, known, n).Some?
    ensures LinkRefusal(links, known, |links|) == LinkRefusal(links, known, n)
    decreases |links| - n
  {
    if n < |links| {
      KeepsRefusal(links, known, n + 1);
    }
  }

  // Published decisions are never rewritten or withdrawn: over any run only the status of one can
  // change, and only from CURRENT to SUPERSEDED.
  lemma {:induction false} PublishedForGood(rs: seq<Request>, more: seq<Request>, i: nat)
    requires i < |Run(rs)|
    ensures i < |Run(rs + more)|
    ensures var before, after := Run(rs)[i], Run(rs + more)[i];
      after == before || (before.status.Current? && after == before.(status := Superseded))
  {
    if more == [] {
      assert rs + more == rs;
    } else {
      PublishedForGood(rs, more[..|more| - 1], i);
      assert (rs + more)[..|rs + more| - 1] == rs + more[..|more| - 1];
    }
  }
}
