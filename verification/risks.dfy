// The risk register: every change of a risk appends a revision, and the record is what the last
// revision says (backend/apps/projects/decision_risk_services.py, lines 20-37 and 193-358).
module Risks {
  import opened Results
  import opened Numbering
  import L = Decisions

  datatype Level = Low | Medium | High

  // Raised, then worked on, then closed and possibly reopened.
  datatype State = Raised | Open | Mitigating | Accepted | Resolved

  predicate Closed(s: State) { s.Accepted? || s.Resolved? }

  datatype Revision = Revision(
    number: int,
    previous: State,
    next: State,
    facts: Facts,
    key: string)

  // The columns a revision copies from the risk.
  datatype Facts = Facts(
    likelihood: Level,
    impact: Level,
    severity: Level,
    owner: Option<int>,
    treatment: string,
    reviewDate: Option<int>,
    closureRationale: string)

  datatype Risk = Risk(
    project: int,
    source: string,
    sourceKey: string,
    key: string,
    state: State,
    facts: Facts,
    closedAt: Option<int>,
    version: int,
    revisions: seq<Revision>,
    links: set<L.Link>)

  datatype Refusal = NotFound | StaleVersion | OwnerNotEligible | Incomplete | InvalidLevel | InvalidAction | NotClosed
                   | BadLinks(reason: L.Refusal) | LinkRecorded

  // RISK_MATRIX
  function Severity(likelihood: Level, impact: Level): Level {
    match (likelihood, impact)
    case (Low, Low) => Low
    case (Low, Medium) => Low
    case (Low, High) => Medium
    case (Medium, Low) => Low
    case (Medium, Medium) => Medium
    case (Medium, High) => High
    case (High, Low) => Medium
    case (High, Medium) => High
    case (High, High) => High
  }

  function Rank(l: Level): int {
    match l
    case Low => 0
    case Medium => 1
    case High => 2
  }

  // The matrix is symmetric, grows with either input and lies between them.
  lemma SeverityIsAnAverage(a: Level, b: Level, c: Level)
    ensures Severity(a, b) == Severity(b, a)
    ensures Rank(a) <= Rank(b) ==> Rank(Severity(a, c)) <= Rank(Severity(b, c))
    ensures Rank(a) <= Rank(b) ==> Rank(a) <= Rank(Severity(a, b)) <= Rank(b)
  {
  }

  // derive_risk_severity on text that may not be a level.
  function DeriveSeverity(likelihood: Option<Level>, impact: Option<Level>): Result<Level, Refusal> {
    if likelihood.Some? && impact.Some? then Ok(Severity(likelihood.value, impact.value)) else Err(InvalidLevel)
  }

  function NumberOf(): Revision -> int { (r: Revision) => r.number }

  // _append_risk_revision, after the risk's own columns were saved.
  function Appended(r: Risk, previous: State, key: string): Risk {
    r.(revisions := r.revisions + [Revision(MaxNumber(r.revisions, NumberOf()) + 1, previous, r.state, r.facts, key)])
  }

  function Created(project: int, source: string, sourceKey: string, key: string, links: set<L.Link>): Risk {
    Appended(Risk(project, source, sourceKey, key, Raised, Facts(Low, Low, Low, None, "", None, ""), None, 1, [], links), Raised, "")
  }

  predicate HasKey(rs: seq<Risk>, project: int, key: string) {
    exists i :: 0 <= i < |rs| && rs[i].project == project && rs[i].key == key
  }

  predicate HasSource(rs: seq<Risk>, project: int, source: string, sourceKey: string) {
    exists i :: 0 <= i < |rs| && rs[i].project == project && rs[i].source == source && rs[i].sourceKey == sourceKey
  }

  function Members(links: seq<L.Link>): set<L.Link> {
    set l | l in links
  }

  // _create_links for a risk; a record that is linked already is turned away by the unique index.
  function LinksObjection(links: seq<L.Link>, known: set<L.Link>, held: set<L.Link>): Option<Refusal> {
    var refusal := L.LinksRefusal(links, known);
    if refusal.Some? then Some(BadLinks(refusal.value))
    else if !(Members(links) !! held) then Some(LinkRecorded)
    else None
  }

  // raise_risk: a used key or an already reported source returns the existing risk.
  function Raise(rs: seq<Risk>, project: int, source: string, sourceKey: string, key: string,
                 links: seq<L.Link>, known: set<L.Link>)
    : Result<seq<Risk>, Refusal>
  {
    if key != "" && HasKey(rs, project, key) then Ok(rs)
    else if sourceKey != "" && HasSource(rs, project, source, sourceKey) then Ok(rs)
    else if LinksObjection(links, known, {}).Some? then Err(LinksObjection(links, known, {}).value)
    else Ok(rs + [Created(project, source, sourceKey, key, Members(links))])
  }

  datatype Triage = Triage(expected: int, likelihood: Option<Level>, impact: Option<Level>, owner: int, ownerEligible: bool,
                           treatment: string, reviewDate: Option<int>) // treatment already stripped

  function TriageRisk(r: Risk, t: Triage): Result<Risk, Refusal> {
    if r.version != t.expected then Err(StaleVersion)
    else if !t.ownerEligible then Err(OwnerNotEligible)
    else if t.treatment == "" || t.reviewDate.None? then Err(Incomplete)
    else
      var severity := DeriveSeverity(t.likelihood, t.impact);
      if severity.Err? then Err(severity.error)
      else
        var facts := Facts(t.likelihood.value, t.impact.value, severity.value, Some(t.owner), t.treatment, t.reviewDate,
                           r.facts.closureRationale);
        Ok(Appended(r.(facts := facts, state := Open, version := r.version + 1), r.state, ""))
  }

  datatype Action = StartMitigation | Accept | Resolve | Reopen

  datatype Transition = Transition(expected: int, action: Option<Action>, reason: string, key: string, now: int,
                                   owner: Option<int>, ownerEligible: bool, reviewDate: Option<int>,
                                   links: seq<L.Link>, known: set<L.Link>)

  function Target(a: Action): State {
    match a
    case StartMitigation => Mitigating
    case Accept => Accepted
    case Resolve => Resolved
    case Reopen => Open
  }

  predicate RevisionKeyUsed(revisions: seq<Revision>, key: string) {
    exists i :: 0 <= i < |revisions| && revisions[i].key == key
  }

  // The risk's own columns after a transition, or why it is refused; reasons are already stripped.
  function Moved(r: Risk, t: Transition, action: Action): Result<Risk, Refusal> {
    match action
    case StartMitigation => Ok(r)
    case Reopen =>
      if !Closed(r.state) then Err(NotClosed)
      else if t.owner.Some? && !t.ownerEligible then Err(OwnerNotEligible)
      else
        var owner := if t.owner.Some? then t.owner else r.facts.owner;
        if owner.None? || t.reviewDate.None? then Err(Incomplete)
        else Ok(r.(facts := r.facts.(owner := owner, reviewDate := t.reviewDate, closureRationale := ""), closedAt := None))
    case _ =>
      if t.reason == "" then Err(Incomplete)
      else Ok(r.(facts := r.facts.(closureRationale := t.reason), closedAt := Some(t.now)))
  }

  function Advanced(moved: Risk, action: Action, links: seq<L.Link>): Risk {
    moved.(state := Target(action), version := moved.version + 1, links := moved.links + Members(links))
  }

  // transition_risk: a key already recorded on a revision returns the risk as it is.
  function TransitionRisk(r: Risk, t: Transition): Result<Risk, Refusal> {
    if RevisionKeyUsed(r.revisions, t.key) then Ok(r)
    else if r.version != t.expected then Err(StaleVersion)
    else if t.action.None? then Err(InvalidAction)
    else
      var moved := Moved(r, t, t.action.value);
      if moved.Err? then Err(moved.error)
      else if LinksObjection(t.links, t.known, r.links).Some? then Err(LinksObjection(t.links, t.known, r.links).value)
      else Ok(Appended(Advanced(moved.value, t.action.value, t.links), r.state, t.key))
  }

  datatype Op =
    | RaiseOp(project: int, source: string, sourceKey: string, key: string, links: seq<L.Link>, known: set<L.Link>)
    | TriageOp(id: nat, triage: Triage)
    | TransitionOp(id: nat, transition: Transition)

  function Apply(rs: seq<Risk>, op: Op): Result<seq<Risk>, Refusal> {
    match op
    case RaiseOp(p, s, sk, k, links, known) => Raise(rs, p, s, sk, k, links, known)
    case TriageOp(id, t) =>
      if id >= |rs| then Err(NotFound)
      else
        var r := TriageRisk(rs[id], t);
        if r.Err? then Err(r.error) else Ok(rs[id := r.value])
    case TransitionOp(id, t) =>
      if id >= |rs| then Err(NotFound)
      else
        var r := TransitionRisk(rs[id], t);
        if r.Err? then Err(r.error) else Ok(rs[id := r.value])
  }

  function Step(rs: seq<Risk>, op: Op): seq<Risk> {
    var reply := Apply(rs, op);
    if reply.Ok? then reply.value else rs
  }

  function Run(ops: seq<Op>): seq<Risk> {
    if ops == [] then [] else Step(Run(ops[..|ops| - 1]), ops[|ops| - 1])
  }

  // ---- The event log is the record ------------------------------------------------------

  // The revisions are numbered 1..n without gaps and each starts where the last one ended.
  ghost predicate LogOk(revisions: seq<Revision>) {
    && revisions != [] && revisions[0].previous.Raised? && revisions[0].next.Raised? && revisions[0].key == ""
    && Numbered(revisions, NumberOf())
    && (forall i :: 0 < i < |revisions| ==> revisions[i].previous == revisions[i - 1].next)
    && (forall i :: 0 <= i < |revisions| ==>
         revisions[i].facts.severity == Severity(revisions[i].facts.likelihood, revisions[i].facts.impact))
  }

  // The record's version counts its revisions, and its columns are what the last one copied.
  ghost predicate RiskOk(r: Risk) {
    && LogOk(r.revisions)
    && r.version == |r.revisions|
    && r.state == r.revisions[|r.revisions| - 1].next
    && r.facts == r.revisions[|r.revisions| - 1].facts
    && (Closed(r.state) ==> r.closedAt.Some? && r.facts.closureRationale != "")
  }

  lemma AppendedOk(r: Risk, changed: Risk, previous: State, key: string)
    requires RiskOk(r) && changed.revisions == r.revisions && changed.version == r.version + 1 && previous == r.state
    requires changed.facts.severity == Severity(changed.facts.likelihood, changed.facts.impact)
    requires Closed(changed.state) ==> changed.closedAt.Some? && changed.facts.closureRationale != ""
    ensures RiskOk(Appended(changed, previous, key))
  {
    MaxOfNumbered(r.revisions, NumberOf());
  }

  lemma TriageKeepsOk(r: Risk, t: Triage)
    requires RiskOk(r) && TriageRisk(r, t).Ok?
    ensures RiskOk(TriageRisk(r, t).value)
  {
    var facts := TriageRisk(r, t).value.facts;
    AppendedOk(r, r.(facts := facts, state := Open, version := r.version + 1), r.state, "");
  }

  lemma TransitionKeepsOk(r: Risk, t: Transition)
    requires RiskOk(r) && TransitionRisk(r, t).Ok?
    ensures RiskOk(TransitionRisk(r, t).value)
  {
    if !RevisionKeyUsed(r.revisions, t.key) {
      var moved := Moved(r, t, t.action.value).value;
      AppendedOk(r, Advanced(moved, t.action.value, t.links), r.state, t.key);
    }
  }

  ghost predicate AllOk(rs: seq<Risk>) {
    forall i :: 0 <= i < |rs| ==> RiskOk(rs[i])
  }

  // In every reachable register each record agrees with its event log.
  lemma {:induction false} RegisterMatchesLog(ops: seq<Op>)
    ensures AllOk(Run(ops))
  {
    if ops != [] {
      var rs, op := Run(ops[..|ops| - 1]), ops[|ops| - 1];
      RegisterMatchesLog(ops[..|ops| - 1]);
      if Apply(rs, op).Ok? {
        match op
        case RaiseOp(p, s, sk, k, links, _) => assert RiskOk(Created(p, s, sk, k, Members(links)));
        case TriageOp(id, t) => TriageKeepsOk(rs[id], t);
        case TransitionOp(id, t) => TransitionKeepsOk(rs[id], t);
      }
    }
  }

  // Logs only grow: no step removes a risk, rewrites a revision or drops a link.
  lemma StepAppendsOnly(rs: seq<Risk>, op: Op, i: nat)
    requires i < |rs|
    ensures |rs| <= |Step(rs, op)| && rs[i].revisions <= Step(rs, op)[i].revisions && rs[i].links <= Step(rs, op)[i].links
  {
  }

  // ---- Retries --------------------------------------------------------------------------

  // A key recorded by a transition makes every later transition with that key a no-op, whatever
  // version or action it names.
  lemma ReplayChangesNothing(r: Risk, t: Transition, again: Transition)
    requires TransitionRisk(r, t).Ok? && again.key == t.key
    ensures TransitionRisk(TransitionRisk(r, t).value, again) == TransitionRisk(r, t)
  {
    var after := TransitionRisk(r, t).value;
    if !RevisionKeyUsed(r.revisions, t.key) {
      assert after.revisions[|r.revisions|].key == t.key;
    }
  }

  // Raising records the empty key, so a transition without a key never does anything.
  lemma EmptyKeyNeverMoves(ops: seq<Op>, i: nat, t: Transition)
    requires i < |Run(ops)| && t.key == ""
    ensures TransitionRisk(Run(ops)[i], t) == Ok(Run(ops)[i])
  {
    RegisterMatchesLog(ops);
    assert Run(ops)[i].revisions[0].key == "";
  }

  // Keys and sources name at most one risk of a project.
  lemma {:induction false} RaisedOnce(ops: seq<Op>, i: nat, j: nat)
    requires i < j < |Run(ops)| && Run(ops)[i].project == Run(ops)[j].project
    ensures Run(ops)[i].key != "" ==> Run(ops)[i].key != Run(ops)[j].key
    ensures Run(ops)[i].sourceKey != "" && Run(ops)[i].source == Run(ops)[j].source ==> Run(ops)[i].sourceKey != Run(ops)[j].sourceKey
  {
    var rs, op := Run(ops[..|ops| - 1]), ops[|ops| - 1];
    assert forall k :: 0 <= k < |rs| ==> SameIdentity(rs[k], Step(rs, op)[k]);
    if j < |rs| {
      assert SameIdentity(rs[i], Step(rs, op)[i]) && SameIdentity(rs[j], Step(rs, op)[j]);
      RaisedOnce(ops[..|ops| - 1], i, j);
    } else {
      assert SameIdentity(rs[i], Step(rs, op)[i]);
    }
  }

  predicate SameIdentity(a: Risk, b: Risk) {
    a.project == b.project && a.key == b.key && a.source == b.source && a.sourceKey == b.sourceKey
  }

  // ---- Closing times --------------------------------------------------------------------

  // A valid reopening: a new key, the current version, a closed risk, an owner who is eligible or
  // stays, a review date, and links that hold.
  predicate ValidReopening(r: Risk, t: Transition) {
    && t.action == Some(Reopen) && !RevisionKeyUsed(r.revisions, t.key) && r.version == t.expected && Closed(r.state)
    && (if t.owner.Some? then t.ownerEligible else r.facts.owner.Some?)
    && t.reviewDate.Some? && L.LinksHold(t.links, t.known) && Members(t.links) !! r.links
  }

  // A reopening with a new key is accepted exactly when it is valid.
  lemma ReopensIff(r: Risk, t: Transition)
    requires t.action == Some(Reopen) && !RevisionKeyUsed(r.revisions, t.key)
    ensures TransitionRisk(r, t).Ok? <==> ValidReopening(r, t)
  {
    L.LinksHoldIff(t.links, t.known);
  }

  // Accepting or resolving stamps the closing time; reopening clears it; triage and mitigation
  // leave it as it is. So a risk that is not closed still shows a closing time exactly when it had
  // one and was not validly reopened.
  lemma ClosingTimeOutlivesClosure(rs: seq<Risk>, op: Op, i: nat)
    requires AllOk(rs) && i < |rs| && !Closed(Step(rs, op)[i].state)
    ensures Step(rs, op)[i].closedAt.Some? <==>
      rs[i].closedAt.Some? && !(op.TransitionOp? && op.id == i && ValidReopening(rs[i], op.transition))
  {
    if op.TransitionOp? && op.id == i {
      TransitionClosingTime(rs[i], op.transition);
    }
  }

  lemma TransitionClosingTime(r: Risk, t: Transition)
    ensures TransitionRisk(r, t).Ok? && !Closed(TransitionRisk(r, t).value.state) ==>
      (TransitionRisk(r, t).value.closedAt.Some? <==> r.closedAt.Some? && !ValidReopening(r, t))
    ensures TransitionRisk(r, t).Err? ==> !ValidReopening(r, t)
  {
    if t.action == Some(Reopen) && !RevisionKeyUsed(r.revisions, t.key) {
      ReopensIff(r, t);
    }
  }

  // Triage of a resolved risk: open again, with the closing time and rationale of its closure.
  lemma TriageKeepsClosingTime(r: Risk, t: Triage)
    requires RiskOk(r) && Closed(r.state) && TriageRisk(r, t).Ok?
    ensures var after := TriageRisk(r, t).value;
      after.state == Open && after.closedAt == r.closedAt && after.closedAt.Some? && after.facts.closureRationale != ""
  {
  }

  // ---- The service ----------------------------------------------------------------------

  class Register {
    var risks: seq<Risk>

    constructor ()
      ensures risks == []
    {
      risks := [];
    }

    method Append(id: nat, previous: State, key: string)
      requires id < |risks|
      modifies this
      ensures risks == old(risks)[id := Appended(old(risks)[id], previous, key)]
    {
      var r := risks[id];
      var number := NextNumber(r.revisions, NumberOf());
      risks := risks[id := r.(revisions := r.revisions + [Revision(number, previous, r.state, r.facts, key)])];
    }

    method CheckRiskLinks(links: seq<L.Link>, known: set<L.Link>, held: set<L.Link>) returns (refusal: Option<Refusal>)
      ensures refusal == LinksObjection(links, known, held)
    {
      var reason := L.CheckLinks(links, known);
      if reason.Some? { return Some(BadLinks(reason.value)); }
      for i := 0 to |links|
        invariant forall k :: 0 <= k < i ==> links[k] !in held
      {
        if links[i] in held {
          assert links[i] in Members(links);
          return Some(LinkRecorded);
        }
      }
      assert Members(links) !! held;
      refusal := None;
    }

    method RaiseRisk(project: int, source: string, sourceKey: string, key: string, links: seq<L.Link>, known: set<L.Link>)
      returns (refusal: Option<Refusal>)
      modifies this
      ensures match Raise(old(risks), project, source, sourceKey, key, links, known)
        case Ok(after) => refusal == None && risks == after
        case Err(reason) => refusal == Some(reason) && risks == old(risks)
    {
      if key != "" && HasKey(risks, project, key) { return None; }
      if sourceKey != "" && HasSource(risks, project, source, sourceKey) { return None; }
      refusal := CheckRiskLinks(links, known, {});
      if refusal.Some? { return; }
      var created := Risk(project, source, sourceKey, key, Raised, Facts(Low, Low, Low, None, "", None, ""), None, 1, [], Members(links));
      risks := risks + [created];
      Append(|risks| - 1, Raised, "");
      return None;
    }

    method TriageById(id: nat, t: Triage) returns (refusal: Option<Refusal>)
      modifies this
      ensures match Apply(old(risks), TriageOp(id, t))
        case Ok(after) => refusal == None && risks == after
        case Err(reason) => refusal == Some(reason) && risks == old(risks)
    {
      if id >= |risks| { return Some(NotFound); }
      var r := risks[id];
      if r.version != t.expected { return Some(StaleVersion); }
      if !t.ownerEligible { return Some(OwnerNotEligible); }
      if t.treatment == "" || t.reviewDate.None? { return Some(Incomplete); }
      var previous := r.state;
      var severity := DeriveSeverity(t.likelihood, t.impact);
      if severity.Err? { return Some(severity.error); }
      r := r.(facts := r.facts.(likelihood := t.likelihood.value, impact := t.impact.value, severity := severity.value));
      r := r.(facts := r.facts.(owner := Some(t.owner), treatment := t.treatment, reviewDate := t.reviewDate));
      r := r.(state := Open, version := r.version + 1);
      risks := risks[id := r];
      Append(id, previous, "");
      return None;
    }

    method TransitionById(id: nat, t: Transition) returns (refusal: Option<Refusal>)
      modifies this
      ensures match Apply(old(risks), TransitionOp(id, t))
        case Ok(after) => refusal == None && risks == after
        case Err(reason) => refusal == Some(reason) && risks == old(risks)
    {
      if id >= |risks| { return Some(NotFound); }
      var r := risks[id];
      if RevisionKeyUsed(r.revisions, t.key) { return None; }
      if r.version != t.expected { return Some(StaleVersion); }
      if t.action.None? { return Some(InvalidAction); }
      var action, previous := t.action.value, r.state;
      if action.Reopen? {
        if !Closed(previous) { return Some(NotClosed); }
        if t.owner.Some? {
          if !t.ownerEligible { return Some(OwnerNotEligible); }
          r := r.(facts := r.facts.(owner := t.owner));
        }
        if r.facts.owner.None? || t.reviewDate.None? { return Some(Incomplete); }
        r := r.(facts := r.facts.(reviewDate := t.reviewDate, closureRationale := ""), closedAt := None);
      } else if action.Accept? || action.Resolve? {
        if t.reason == "" { return Some(Incomplete); }
        r := r.(facts := r.facts.(closureRationale := t.reason), closedAt := Some(t.now));
      }
      refusal := CheckRiskLinks(t.links, t.known, r.links);
      if refusal.Some? { return; }
      risks := risks[id := r.(state := Target(action), version := r.version + 1, links := r.links + Members(t.links))];
      Append(id, previous, t.key);
      return None;
    }
  }
}
