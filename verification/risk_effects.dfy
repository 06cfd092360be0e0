// What each call of the risk register accepts and what the record and its new revision read afterwards
// (backend/apps/projects/decision_risk_services.py, lines 20-37 and 193-358).
module RiskEffects {
  import opened Results
  import opened Numbering
  import opened Risks

  // Severity follows the sum of the two ranks: high from medium with high on, medium when they balance.
  lemma SeverityBySum(likelihood: Level, impact: Level)
    ensures var sum := Rank(likelihood) + Rank(impact);
      Severity(likelihood, impact) == if sum >= 3 then High else if sum == 2 then Medium else Low
  {
  }

  // The links a call gives can all be recorded.
  ghost predicate LinksFit(links: seq<L.Link>, known: set<L.Link>, held: set<L.Link>) {
    && |links| <= 100
    && (forall l :: l in links ==> l in known && l !in held)
    && (forall i, j :: 0 <= i < j < |links| ==> links[i] != links[j])
  }

  lemma LinksFitIff(links: seq<L.Link>, known: set<L.Link>, held: set<L.Link>)
    ensures LinksObjection(links, known, held).None? <==> LinksFit(links, known, held)
  {
    L.LinksHoldIff(links, known);
    if LinksFit(links, known, held) {
      forall i | 0 <= i < |links| ensures links[i] in known {
        assert links[i] in links;
      }
      assert Members(links) !! held;
    }
    if LinksObjection(links, known, held).None? {
      forall l | l in links ensures l in known && l !in held {
        assert l in Members(links);
      }
    }
  }

  // ---- Transitions ----------------------------------------------------------------------

  // What an action asks for beside the current version and fitting links.
  predicate Permits(r: Risk, t: Transition)
    requires t.action.Some?
  {
    match t.action.value
    case StartMitigation => true
    case Accept => t.reason != ""
    case Resolve => t.reason != ""
    case Reopen =>
      && (r.state.Accepted? || r.state.Resolved?)
      && t.reviewDate.Some? && (t.owner.Some? ==> t.ownerEligible) && (t.owner.Some? || r.facts.owner.Some?)
  }

  // A transition with a new key goes through exactly at the current version, with an action whose demands
  // are met and links that fit. The state is not looked at except by reopening.
  lemma TransitionsIff(r: Risk, t: Transition)
    requires forall i :: 0 <= i < |r.revisions| ==> r.revisions[i].key != t.key
    ensures TransitionRisk(r, t).Ok? <==>
      r.version == t.expected && t.action.Some? && Permits(r, t) && LinksFit(t.links, t.known, r.links)
  {
    LinksFitIff(t.links, t.known, r.links);
  }

  // What an action writes to the risk's own columns.
  ghost predicate Writes(r: Risk, t: Transition, after: Risk)
    requires t.action.Some?
  {
    match t.action.value
    case StartMitigation => after.state == Mitigating && after.closedAt == r.closedAt && after.facts == r.facts
    case Accept =>
      && after.state == Accepted && after.closedAt == Some(t.now) && after.facts.closureRationale == t.reason
      && after.facts.owner == r.facts.owner && after.facts.reviewDate == r.facts.reviewDate
    case Resolve =>
      && after.state == Resolved && after.closedAt == Some(t.now) && after.facts.closureRationale == t.reason
      && after.facts.owner == r.facts.owner && after.facts.reviewDate == r.facts.reviewDate
    case Reopen =>
      && after.state == Open && after.closedAt == None && after.facts.closureRationale == ""
      && after.facts.owner == (if t.owner.Some? then t.owner else r.facts.owner) && after.facts.reviewDate == t.reviewDate
  }

  lemma TransitionWrites(r: Risk, t: Transition)
    requires !RevisionKeyUsed(r.revisions, t.key) && TransitionRisk(r, t).Ok?
    ensures var after := TransitionRisk(r, t).value;
      && t.action.Some? && Writes(r, t, after) && after.version == r.version + 1 && after.links == r.links + Members(t.links)
      && after.facts.likelihood == r.facts.likelihood && after.facts.impact == r.facts.impact
      && after.facts.severity == r.facts.severity && after.facts.treatment == r.facts.treatment
  {
  }

  lemma TransitionAppends(r: Risk, t: Transition)
    requires RiskOk(r) && !RevisionKeyUsed(r.revisions, t.key) && TransitionRisk(r, t).Ok?
    ensures var after := TransitionRisk(r, t).value;
      after.revisions == r.revisions + [Revision(|r.revisions| + 1, r.state, after.state, after.facts, t.key)]
  {
    MaxOfNumbered(r.revisions, NumberOf());
  }

  // Over every reachable register, the record and the appended revision after an accepted transition with
  // a new key: the state each action leads to, and what it does to the closing time, the rationale, the
  // owner and the review date.
  lemma TransitionIsRecorded(ops: seq<Op>, id: nat, t: Transition)
    requires id < |Run(ops)| && TransitionRisk(Run(ops)[id], t).Ok?
    requires forall i :: 0 <= i < |Run(ops)[id].revisions| ==> Run(ops)[id].revisions[i].key != t.key
    ensures var r, after := Run(ops)[id], TransitionRisk(Run(ops)[id], t).value;
      && t.action.Some? && Writes(r, t, after) && after.version == r.version + 1
      && after.revisions == r.revisions + [Revision(|r.revisions| + 1, r.state, after.state, after.facts, t.key)]
      && (forall l :: l in after.links <==> l in r.links || l in t.links)
      && after.facts.likelihood == r.facts.likelihood && after.facts.impact == r.facts.impact
      && after.facts.severity == r.facts.severity && after.facts.treatment == r.facts.treatment
  {
    RegisterMatchesLog(ops);
    TransitionWrites(Run(ops)[id], t);
    TransitionAppends(Run(ops)[id], t);
  }

  // Mitigation does not ask whether the risk is open: started on a closed risk it opens it, and keeps the
  // time and rationale of the closure.
  lemma MitigationOpensClosed(ops: seq<Op>, id: nat, t: Transition)
    requires id < |Run(ops)| && Closed(Run(ops)[id].state) && t.action == Some(StartMitigation) && t.links == []
    requires t.expected == Run(ops)[id].version
    requires forall i :: 0 <= i < |Run(ops)[id].revisions| ==> Run(ops)[id].revisions[i].key != t.key
    ensures var r, reply := Run(ops)[id], TransitionRisk(Run(ops)[id], t);
      reply.Ok? && !Closed(reply.value.state) && reply.value.closedAt.Some? && reply.value.facts.closureRationale != ""
  {
    RegisterMatchesLog(ops);
    TransitionsIff(Run(ops)[id], t);
    TransitionIsRecorded(ops, id, t);
  }

  // ---- Triage ---------------------------------------------------------------------------

  // Triage asks for the current version, an eligible owner, a treatment, a review date and two levels,
  // and nothing of the state.
  lemma TriagesIff(r: Risk, t: Triage)
    ensures TriageRisk(r, t).Ok? <==>
      && r.version == t.expected && t.ownerEligible && t.treatment != "" && t.reviewDate.Some?
      && t.likelihood.Some? && t.impact.Some?
  {
  }

  lemma TriageAppends(r: Risk, t: Triage)
    requires RiskOk(r) && TriageRisk(r, t).Ok?
    ensures var after := TriageRisk(r, t).value;
      after.revisions == r.revisions + [Revision(|r.revisions| + 1, r.state, Open, after.facts, "")]
  {
    MaxOfNumbered(r.revisions, NumberOf());
  }

  lemma TriageIsRecorded(ops: seq<Op>, id: nat, t: Triage)
    requires id < |Run(ops)| && TriageRisk(Run(ops)[id], t).Ok?
    ensures var r, after := Run(ops)[id], TriageRisk(Run(ops)[id], t).value;
      && after.state == Open && after.version == r.version + 1
      && Some(after.facts.likelihood) == t.likelihood && Some(after.facts.impact) == t.impact
      && after.facts.severity == Severity(after.facts.likelihood, after.facts.impact)
      && after.facts.owner == Some(t.owner) && after.facts.treatment == t.treatment && after.facts.reviewDate == t.reviewDate
      && after.facts.closureRationale == r.facts.closureRationale && after.closedAt == r.closedAt && after.links == r.links
      && after.revisions == r.revisions + [Revision(|r.revisions| + 1, r.state, Open, after.facts, "")]
  {
    RegisterMatchesLog(ops);
    TriageAppends(Run(ops)[id], t);
  }

  // ---- Raising --------------------------------------------------------------------------

  // The project already has a risk with this key, or one reported from this source.
  predicate Known(rs: seq<Risk>, project: int, source: string, sourceKey: string, key: string) {
    exists i :: 0 <= i < |rs| && rs[i].project == project
      && ((key != "" && rs[i].key == key) || (sourceKey != "" && rs[i].source == source && rs[i].sourceKey == sourceKey))
  }

  // Raising a known risk changes nothing; a new one is raised exactly when its links fit.
  lemma RaisesIff(rs: seq<Risk>, project: int, source: string, sourceKey: string, key: string,
                  links: seq<L.Link>, known: set<L.Link>)
    ensures var reply := Raise(rs, project, source, sourceKey, key, links, known);
      if Known(rs, project, source, sourceKey, key) then reply == Ok(rs) else reply.Ok? <==> LinksFit(links, known, {})
  {
    LinksFitIff(links, known, {});
  }

  // A new risk is raised, low in everything, nobody's and undated, with one revision that says so.
  lemma RaisedIsRecorded(rs: seq<Risk>, project: int, source: string, sourceKey: string, key: string,
                         links: seq<L.Link>, known: set<L.Link>)
    requires !Known(rs, project, source, sourceKey, key) && LinksFit(links, known, {})
    ensures var reply := Raise(rs, project, source, sourceKey, key, links, known);
      && reply.Ok? && |reply.value| == |rs| + 1 && reply.value[..|rs|] == rs
      && var r := reply.value[|rs|];
         && r.project == project && r.source == source && r.sourceKey == sourceKey && r.key == key
         && r.state == Raised && r.version == 1 && r.closedAt == None
         && r.facts.likelihood == Low && r.facts.impact == Low && r.facts.severity == Low
         && r.facts.owner == None && r.facts.reviewDate == None && r.facts.treatment == "" && r.facts.closureRationale == ""
         && r.revisions == [Revision(1, Raised, Raised, r.facts, "")]
         && forall l :: l in r.links <==> l in links
  {
    RaisesIff(rs, project, source, sourceKey, key, links, known);
  }

  // ---- Over runs ------------------------------------------------------------------------

  // An accepted call is in the register from then on; a refused one leaves no trace.
  lemma CallsAreStored(ops: seq<Op>, op: Op)
    ensures match Apply(Run(ops), op)
      case Ok(after) => Run(ops + [op]) == after
      case Err(_) => Run(ops + [op]) == Run(ops)
  {
    assert (ops + [op])[..|ops|] == ops;
  }
}
