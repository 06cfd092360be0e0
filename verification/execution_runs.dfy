// What every run of milestone and deliverable operations keeps.
module ExecutionRuns {
  import opened Results
  import opened Numbering
  import opened Execution

  // An accepted deliverable points at a revision that was finally accepted; revisions are
  // numbered 1..n and the current one is the n-th.
  ghost predicate DeliverableOk(d: Deliverable) {
    && Numbered(d.revisions, NumberOf())
    && d.currentRevision == (if d.revisions == [] then None else Some(|d.revisions| - 1))
    && (d.status.Accepted? ==> d.acceptedRevision.Some?)
    && (d.acceptedRevision.Some? ==>
         && d.acceptedRevision.value < |d.revisions|
         && d.revisions[d.acceptedRevision.value].decision == Some(Accept))
  }

  // The check constraints on the milestone's timestamps.
  predicate StampsOk(m: Milestone) {
    (m.status.MCompleted? <==> m.completedAt.Some?) && (m.status.MArchived? <==> m.archivedAt.Some?)
  }

  ghost predicate BoardOk(m: Milestone) {
    StampsOk(m) && forall i :: 0 <= i < |m.deliverables| ==> DeliverableOk(m.deliverables[i])
  }

  lemma ReconciledStamps(m: Milestone, now: int, today: int)
    ensures StampsOk(Reconciled(m, now, today))
    ensures Reconciled(m, now, today).deliverables == m.deliverables
    ensures Reconciled(m, now, today).archivedAt == m.archivedAt
    ensures Reconciled(m, now, today).status == Derived(m, today)
  {
  }

  // Replacing one deliverable by a good one keeps the board good.
  lemma ReplacedOk(m: Milestone, id: nat, d: Deliverable, now: int, today: int)
    requires id < |m.deliverables| && DeliverableOk(d)
    requires forall i :: 0 <= i < |m.deliverables| ==> DeliverableOk(m.deliverables[i])
    ensures BoardOk(Reconciled(WithDeliverable(m, id, d), now, today))
  {
    ReconciledStamps(WithDeliverable(m, id, d), now, today);
  }

  lemma UpdateKeeps(m: Milestone, id: nat, c: Change, now: int, today: int)
    requires BoardOk(m) && Update(m, id, c, now, today).Ok?
    ensures BoardOk(Update(m, id, c, now, today).value)
  {
    var after := Update(m, id, c, now, today).value;
    ReplacedOk(m, id, after.deliverables[id], now, today);
  }

  lemma SubmitKeeps(m: Milestone, id: nat, key: string, evidence: nat, has: bool, now: int, today: int)
    requires BoardOk(m) && Submit(m, id, key, evidence, has, now, today).Ok?
    ensures BoardOk(Submit(m, id, key, evidence, has, now, today).value)
  {
    var after := Submit(m, id, key, evidence, has, now, today).value;
    if after != m {
      MaxOfNumbered(m.deliverables[id].revisions, NumberOf());
      ReplacedOk(m, id, after.deliverables[id], now, today);
    }
  }

  lemma DecideKeeps(m: Milestone, id: nat, r: nat, v: Verdict, why: string, key: string, now: int, today: int)
    requires BoardOk(m) && Decide(m, id, r, v, why, key, now, today).Ok?
    ensures BoardOk(Decide(m, id, r, v, why, key, now, today).value)
  {
    var after := Decide(m, id, r, v, why, key, now, today).value;
    if m.deliverables[id].revisions[r].decision.None? {
      var keyed := if key != "" then m.(decisionKeys := m.decisionKeys + {key}) else m;
      ReplacedOk(keyed, id, after.deliverables[id], now, today);
    }
  }

  lemma RecommendKeeps(m: Milestone, id: nat, r: nat, reviewer: int, v: Verdict, why: string)
    requires BoardOk(m) && Recommend(m, id, r, reviewer, v, why).Ok?
    ensures BoardOk(Recommend(m, id, r, reviewer, v, why).value)
  {
    assert DeliverableOk(Recommend(m, id, r, reviewer, v, why).value.deliverables[id]);
  }

  lemma StepKeepsBoard(m: Milestone, op: Op)
    requires BoardOk(m)
    ensures BoardOk(Step(m, op))
  {
    if Apply(m, op).Ok? {
      match op
      case UpdateOp(id, c, now, today) => UpdateKeeps(m, id, c, now, today);
      case ArchiveOneOp(id, expected, now, today) =>
        ReplacedOk(m, id, Step(m, op).deliverables[id], now, today);
      case SubmitOp(id, key, evidence, has, now, today) => SubmitKeeps(m, id, key, evidence, has, now, today);
      case RecommendOp(id, r, reviewer, v, why) => RecommendKeeps(m, id, r, reviewer, v, why);
      case DecideOp(id, r, v, why, key, now, today) => DecideKeeps(m, id, r, v, why, key, now, today);
      case UpdateMilestoneOp(expected, target, now, today) =>
        ReconciledStamps(m.(targetDate := if target.Some? then target.value else m.targetDate, version := m.version + 1), now, today);
      case CreateOp(_, _, _) =>
      case ArchiveMilestoneOp(_, _) =>
    }
  }

  // Whatever work a milestone started with, in every reachable state an ACCEPTED deliverable has a
  // finally accepted revision, revision numbers are 1..n, and the milestone's timestamps match its status.
  lemma {:induction false} RunsKeepBoard(m: Milestone, ops: seq<Op>)
    requires BoardOk(m)
    ensures BoardOk(Run(m, ops))
  {
    if ops != [] {
      RunsKeepBoard(m, ops[..|ops| - 1]);
      StepKeepsBoard(Run(m, ops[..|ops| - 1]), ops[|ops| - 1]);
    }
  }

  lemma NewMilestoneOk(target: int, keys: set<string>)
    ensures BoardOk(NewMilestone(target, keys))
  {
  }

  // ---- Final decisions are written once -------------------------------------------------

  ghost predicate KeepsRevision(before: Revision, after: Revision) {
    after.number == before.number && (before.decision.Some? ==> after.decision == before.decision)
  }

  ghost predicate KeepsRevisions(d: Deliverable, after: Deliverable) {
    && |d.revisions| <= |after.revisions|
    && forall r :: 0 <= r < |d.revisions| ==> KeepsRevision(d.revisions[r], after.revisions[r])
  }

  ghost predicate KeepsDecisions(m: Milestone, after: Milestone) {
    && |m.deliverables| <= |after.deliverables|
    && forall i :: 0 <= i < |m.deliverables| ==> KeepsRevisions(m.deliverables[i], after.deliverables[i])
  }

  lemma ReplacedKeepsDecisions(m: Milestone, id: nat, after: Milestone)
    requires id < |m.deliverables| == |after.deliverables| && after.deliverables == m.deliverables[id := after.deliverables[id]]
    requires KeepsRevisions(m.deliverables[id], after.deliverables[id])
    ensures KeepsDecisions(m, after)
  {
  }

  lemma StepKeepsDecisions(m: Milestone, op: Op)
    ensures KeepsDecisions(m, Step(m, op))
  {
    var after := Step(m, op);
    match op
    case UpdateOp(id, _, _, _) =>
      if Apply(m, op).Ok? { ReplacedKeepsDecisions(m, id, after); }
    case ArchiveOneOp(id, _, _, _) =>
      if Apply(m, op).Ok? { ReplacedKeepsDecisions(m, id, after); }
    case SubmitOp(id, _, _, _, _, _) =>
      if after != m { ReplacedKeepsDecisions(m, id, after); }
    case RecommendOp(id, _, _, _, _) =>
      if Apply(m, op).Ok? { ReplacedKeepsDecisions(m, id, after); }
    case DecideOp(id, _, _, _, _, _, _) =>
      if after != m { ReplacedKeepsDecisions(m, id, after); }
    case UpdateMilestoneOp(_, _, _, _) =>
    case CreateOp(_, _, _) =>
    case ArchiveMilestoneOp(_, _) =>
  }

  lemma {:induction false} DecisionsAreFinal(m: Milestone, ops: seq<Op>)
    ensures KeepsDecisions(m, Run(m, ops))
  {
    if ops != [] {
      var before := Run(m, ops[..|ops| - 1]);
      DecisionsAreFinal(m, ops[..|ops| - 1]);
      StepKeepsDecisions(before, ops[|ops| - 1]);
    }
  }

  // ---- The derived status ---------------------------------------------------------------

  // Right after a reconcile: COMPLETED exactly when not archived, with at least one required
  // unarchived deliverable and all of those accepted.
  lemma CompletedIff(m: Milestone, now: int, today: int)
    ensures Reconciled(m, now, today).status.MCompleted? <==>
      && m.archivedAt.None?
      && (exists i :: 0 <= i < |m.deliverables| && m.deliverables[i].required && m.deliverables[i].archivedAt.None?)
      && (forall i :: 0 <= i < |m.deliverables| && m.deliverables[i].required && m.deliverables[i].archivedAt.None? ==>
           m.deliverables[i].status.Accepted?)
  {
  }

  // Reconciling again on the same day changes nothing, and a completed milestone that stays
  // completed keeps its first completion time, on any day.
  lemma ReconcileIsStable(m: Milestone, now: int, later: int, today: int, day: int)
    ensures Reconciled(Reconciled(m, now, today), later, today) == Reconciled(m, now, today)
    ensures m.completedAt.Some? && Derived(m, day).MCompleted? ==>
      Reconciled(m, later, day).completedAt == m.completedAt
  {
  }

  // Committed operations that end by reconciling.
  predicate Reconciles(m: Milestone, op: Op) {
    Apply(m, op).Ok? && match op
      case UpdateOp(_, _, _, _) => true
      case ArchiveOneOp(_, _, _, _) => true
      case SubmitOp(id, key, _, _, _, _) => !(key != "" && RevisionKeyUsed(m.deliverables[id].revisions, key))
      case DecideOp(id, r, _, _, _, _, _) => m.deliverables[id].revisions[r].decision.None?
      case UpdateMilestoneOp(_, _, _, _) => true
      case _ => false
  }

  function Day(op: Op): int {
    match op
    case UpdateOp(_, _, _, today) => today
    case ArchiveOneOp(_, _, _, today) => today
    case SubmitOp(_, _, _, _, _, today) => today
    case DecideOp(_, _, _, _, _, _, today) => today
    case UpdateMilestoneOp(_, _, _, today) => today
    case _ => 0
  }

  lemma DerivedAfter(m: Milestone, now: int, today: int)
    ensures Derived(Reconciled(m, now, today), today) == Reconciled(m, now, today).status
  {
  }

  // After each of them the stored status is the derived one.
  lemma StatusIsDerived(m: Milestone, op: Op)
    requires Reconciles(m, op)
    ensures Step(m, op).status == Derived(Step(m, op), Day(op))
  {
    match op
    case UpdateOp(id, c, now, today) =>
      DerivedAfter(WithDeliverable(m, id, Edited(m.deliverables[id], c).value), now, today);
    case ArchiveOneOp(id, _, now, today) =>
      DerivedAfter(WithDeliverable(m, id, Step(m, op).deliverables[id]), now, today);
    case SubmitOp(id, _, _, _, now, today) =>
      DerivedAfter(WithDeliverable(m, id, Step(m, op).deliverables[id]), now, today);
    case DecideOp(id, _, _, _, key, now, today) =>
      var keyed := if key != "" then m.(decisionKeys := m.decisionKeys + {key}) else m;
      DerivedAfter(WithDeliverable(keyed, id, Step(m, op).deliverables[id]), now, today);
    case UpdateMilestoneOp(_, target, now, today) =>
      DerivedAfter(m.(targetDate := if target.Some? then target.value else m.targetDate, version := m.version + 1), now, today);
  }

  // An archived milestone stays archived.
  lemma {:induction false} ArchivedForGood(m: Milestone, ops: seq<Op>)
    requires BoardOk(m) && m.archivedAt.Some?
    ensures Run(m, ops).status.MArchived? && Run(m, ops).archivedAt.Some? && BoardOk(Run(m, ops))
  {
    if ops != [] {
      ArchivedForGood(m, ops[..|ops| - 1]);
      StepKeepsBoard(Run(m, ops[..|ops| - 1]), ops[|ops| - 1]);
    }
  }

  // A work-status update that is valid: the version is current, the progress in range, the status one
  // of work, and a blocked deliverable has a summary.
  predicate ValidWorkUpdate(d: Deliverable, c: Change) {
    && d.version == c.expected
    && (c.progress.Some? ==> 0 <= c.progress.value <= 100)
    && c.workStatus.Some? && IsWork(c.workStatus.value)
    && (c.workStatus.value.Blocked? ==> (if c.blocker.Some? then c.blocker.value else d.blocker) != "")
  }

  // The converse of the acceptance rule fails: a valid work-status update takes an accepted
  // deliverable back to work and leaves its accepted revision in place, and so does archiving it, or
  // its milestone, at the current version. Nothing else does.
  lemma AcceptedRevisionMayOutliveStatus(m: Milestone, op: Op, i: nat)
    requires BoardOk(m) && i < |m.deliverables|
    requires m.deliverables[i].acceptedRevision.Some? && m.deliverables[i].status.Accepted?
    ensures var d, after := m.deliverables[i], Step(m, op).deliverables[i];
      after.acceptedRevision.Some? && !after.status.Accepted? <==>
      || (op.UpdateOp? && op.id == i && ValidWorkUpdate(d, op.change))
      || (op.ArchiveOneOp? && op.id == i && op.expected == d.version && !(d.required && m.status.MCompleted?))
      || (op.ArchiveMilestoneOp? && op.expected == m.version)
  {
  }
}
