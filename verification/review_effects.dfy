// What the calls on deliverables and milestones accept, what they write, and what the milestone reads
// afterwards (backend/apps/projects/execution_services.py, lines 146-436, 494-783).
module ReviewEffects {
  import opened Results
  import opened Numbering
  import opened Execution
  import opened ExecutionRuns

  // ---- The milestone's status -----------------------------------------------------------

  // Some required, unarchived deliverable has one of these statuses.
  predicate SomeRequired(m: Milestone, statuses: set<WorkStatus>) {
    exists i :: 0 <= i < |m.deliverables| && m.deliverables[i].required && m.deliverables[i].archivedAt == None
      && m.deliverables[i].status in statuses
  }

  predicate AllRequired(m: Milestone, statuses: set<WorkStatus>) {
    forall i :: 0 <= i < |m.deliverables| && m.deliverables[i].required && m.deliverables[i].archivedAt == None ==>
      m.deliverables[i].status in statuses
  }

  predicate AnyRequired(m: Milestone) {
    exists i :: 0 <= i < |m.deliverables| && m.deliverables[i].required && m.deliverables[i].archivedAt == None
  }

  // The required work there is is all accepted.
  predicate AllDone(m: Milestone) {
    AllRequired(m, {Accepted}) && AnyRequired(m)
  }

  // Right after a reconcile every status has one meaning: blocked work outranks a date that has passed,
  // and either outranks work in progress.
  lemma StatusMeans(m: Milestone, now: int, today: int)
    ensures var status, late := Reconciled(m, now, today).status, m.targetDate < today;
      var live := m.archivedAt == None && !AllDone(m);
      && (status == MArchived <==> m.archivedAt != None)
      && (status == MCompleted <==> m.archivedAt == None && AllDone(m))
      && (status == MBlocked <==> live && SomeRequired(m, {Blocked}))
      && (status == MOverdue <==> live && !SomeRequired(m, {Blocked}) && late)
      && (status == MInProgress <==>
           live && !SomeRequired(m, {Blocked}) && !late
           && SomeRequired(m, {InProgress, Submitted, UnderReview, ChangesRequested}))
      && (status == MPlanned <==>
           live && !late && AllRequired(m, {Planned, Accepted, Archived}))
  {
    assert AnyCounts(m.deliverables) <==> AnyRequired(m);
    assert AllAccepted(m.deliverables) <==> AllRequired(m, {Accepted});
    assert AnyBlocked(m.deliverables) <==> SomeRequired(m, {Blocked});
    assert AnyWorking(m.deliverables) <==> SomeRequired(m, {InProgress, Submitted, UnderReview, ChangesRequested});
  }

  // Reconciling writes the status, the completion time and, when the status changes, the version.
  lemma ReconcileWrites(m: Milestone, now: int, today: int)
    ensures var after := Reconciled(m, now, today);
      && after.(status := m.status, completedAt := m.completedAt, version := m.version) == m
      && after.version == (if after.status == m.status then m.version else m.version + 1)
      && (after.status == MCompleted ==> after.completedAt == if m.completedAt.Some? then m.completedAt else Some(now))
      && (after.status != MCompleted ==> after.completedAt == None)
  {
  }

  // ---- Decisions ------------------------------------------------------------------------

  predicate Undecided(m: Milestone, op: Op)
    requires op.DecideOp?
  {
    op.id < |m.deliverables| && op.revision < |m.deliverables[op.id].revisions|
    && m.deliverables[op.id].revisions[op.revision].decision == None
  }

  // The first decision needs a reason to return, a standing recommendation where a reviewer is required,
  // and a retry key nobody used.
  lemma DecidesIff(m: Milestone, op: Op)
    requires op.DecideOp? && Undecided(m, op)
    ensures var d := m.deliverables[op.id];
      Apply(m, op).Ok? <==>
      && (op.verdict == Return ==> op.rationale != "")
      && (d.reviewerRequired ==> exists p :: p in d.revisions[op.revision].recommendations)
      && (op.key == "" || op.key !in m.decisionKeys)
  {
    var given := m.deliverables[op.id].revisions[op.revision].recommendations;
    if forall p :: p !in given {
      assert given == map[];
    }
  }

  // What a verdict does to the deliverable and the revision.
  predicate Decides(d: Deliverable, after: Deliverable, op: Op)
    requires op.DecideOp? && op.revision < |d.revisions| == |after.revisions|
  {
    && after.version == d.version + 1
    && after.revisions == d.revisions[op.revision := after.revisions[op.revision]]
    && after.revisions[op.revision].decision == Some(op.verdict)
    && after.revisions[op.revision].number == d.revisions[op.revision].number
    && after.revisions[op.revision].key == d.revisions[op.revision].key
    && after.revisions[op.revision].recommendations == d.revisions[op.revision].recommendations
    && after.required == d.required && after.reviewerRequired == d.reviewerRequired && after.blocker == d.blocker
    && after.archivedAt == d.archivedAt && after.currentRevision == d.currentRevision
    && (op.verdict == Accept ==>
         && after.status == Accepted && after.revisions[op.revision].state == FinallyAccepted
         && after.acceptedRevision == Some(op.revision) && after.acceptedAt == Some(op.now) && after.progress == 100)
    && (op.verdict == Return ==>
         && after.status == ChangesRequested && after.revisions[op.revision].state == FinallyReturned
         && after.acceptedRevision == None && after.acceptedAt == None && after.progress == d.progress)
  }

  // The first decision is recorded; a later one returns it and changes nothing.
  lemma DecisionIsRecorded(m: Milestone, op: Op)
    requires op.DecideOp? && Apply(m, op).Ok?
    ensures op.id < |m.deliverables| && op.revision < |m.deliverables[op.id].revisions|
    ensures !Undecided(m, op) ==> Step(m, op) == m
    ensures Undecided(m, op) ==>
      var after := Step(m, op);
      && |after.deliverables| == |m.deliverables|
      && after.deliverables == m.deliverables[op.id := after.deliverables[op.id]]
      && |after.deliverables[op.id].revisions| == |m.deliverables[op.id].revisions|
      && Decides(m.deliverables[op.id], after.deliverables[op.id], op)
      && after.decisionKeys == (if op.key == "" then m.decisionKeys else m.decisionKeys + {op.key})
      && after.targetDate == m.targetDate && after.archivedAt == m.archivedAt
  {
  }

  lemma StatusAfter(m: Milestone, op: Op)
    requires Reconciles(m, op)
    ensures Step(m, op).status == Reconciled(Step(m, op), 0, Day(op)).status
  {
    StatusIsDerived(m, op);
  }

  // Other required, unarchived work is blocked.
  predicate OtherBlocked(m: Milestone, id: nat) {
    exists i :: 0 <= i < |m.deliverables| && i != id && m.deliverables[i].required && m.deliverables[i].archivedAt == None
      && m.deliverables[i].status == Blocked
  }

  // A returned piece of required work leaves its milestone in progress, unless other required work is
  // blocked or the target date has passed.
  lemma ReturnLeavesInProgress(m: Milestone, op: Op)
    requires op.DecideOp? && op.verdict == Return && Undecided(m, op) && Apply(m, op).Ok? && m.archivedAt == None
    requires m.deliverables[op.id].required && m.deliverables[op.id].archivedAt == None
    ensures Step(m, op).status == if OtherBlocked(m, op.id) then MBlocked else if m.targetDate < op.today then MOverdue else MInProgress
  {
    var after := Step(m, op);
    DecisionIsRecorded(m, op);
    StatusAfter(m, op);
    StatusMeans(after, 0, op.today);
    assert after.deliverables[op.id].status == ChangesRequested;
    assert forall i :: 0 <= i < |m.deliverables| && i != op.id ==> after.deliverables[i] == m.deliverables[i];
  }

  // Accepting the last required work completes the milestone.
  lemma AcceptCompletesIff(m: Milestone, op: Op)
    requires op.DecideOp? && op.verdict == Accept && Undecided(m, op) && Apply(m, op).Ok? && m.archivedAt == None
    requires m.deliverables[op.id].required && m.deliverables[op.id].archivedAt == None
    ensures Step(m, op).status == MCompleted <==>
      forall i :: 0 <= i < |m.deliverables| && i != op.id && m.deliverables[i].required && m.deliverables[i].archivedAt == None ==>
        m.deliverables[i].status == Accepted
  {
    var after := Step(m, op);
    DecisionIsRecorded(m, op);
    StatusAfter(m, op);
    StatusMeans(after, 0, op.today);
    assert after.deliverables[op.id].status == Accepted;
    assert forall i :: 0 <= i < |m.deliverables| && i != op.id ==> after.deliverables[i] == m.deliverables[i];
  }

  // ---- Submitting and recommending ------------------------------------------------------

  predicate Retried(m: Milestone, op: Op)
    requires op.SubmitOp? && op.id < |m.deliverables|
  {
    op.key != "" && exists i :: 0 <= i < |m.deliverables[op.id].revisions| && m.deliverables[op.id].revisions[i].key == op.key
  }

  // A retry changes nothing. A new revision needs evidence, a designated reviewer where one is required,
  // and a deliverable that is neither accepted nor archived.
  lemma SubmitsIff(m: Milestone, op: Op)
    requires op.SubmitOp? && op.id < |m.deliverables|
    ensures Retried(m, op) ==> Apply(m, op) == Ok(m)
    ensures var d := m.deliverables[op.id];
      !Retried(m, op) ==> (Apply(m, op).Ok? <==>
        && d.status != Accepted && d.status != Archived && op.evidence > 0 && (d.reviewerRequired ==> op.hasReviewer))
  {
  }

  // The new revision is numbered on, open, without recommendation or decision, and current; the
  // deliverable waits for a review if one is required.
  lemma SubmissionIsRecorded(m: Milestone, op: Op)
    requires BoardOk(m) && op.SubmitOp? && op.id < |m.deliverables| && !Retried(m, op) && Apply(m, op).Ok?
    ensures var d, after := m.deliverables[op.id], Step(m, op);
      && |after.deliverables| == |m.deliverables|
      && after.deliverables == m.deliverables[op.id := d.(
           revisions := d.revisions + [Revision(|d.revisions| + 1, op.key, RevisionState.Open, map[], None)],
           currentRevision := Some(|d.revisions|),
           status := if d.reviewerRequired then UnderReview else Submitted,
           version := d.version + 1)]
      && after.decisionKeys == m.decisionKeys && after.targetDate == m.targetDate && after.archivedAt == m.archivedAt
  {
    MaxOfNumbered(m.deliverables[op.id].revisions, NumberOf());
  }

  // A recommendation with a reason replaces the same person's and sets the revision's state, whether or
  // not the revision is decided; the milestone is left alone.
  lemma RecommendationIsRecorded(m: Milestone, op: Op)
    requires op.RecommendOp?
    ensures Apply(m, op).Ok? <==>
      op.id < |m.deliverables| && op.revision < |m.deliverables[op.id].revisions| && op.rationale != ""
    ensures Apply(m, op).Ok? ==>
      var d, after := m.deliverables[op.id], Step(m, op);
      var r := d.revisions[op.revision];
      var recommended := r.(recommendations := r.recommendations[op.reviewer := op.verdict],
                            state := if op.verdict == Accept then RecommendedAccept else RecommendedReturn);
      after == m.(deliverables := m.deliverables[op.id := d.(revisions := d.revisions[op.revision := recommended])])
  {
  }

  // ---- Planning and archiving -----------------------------------------------------------

  predicate Given<T(==)>(x: Option<T>, now: T, was: T) {
    (x.Some? ==> now == x.value) && (x.None? ==> now == was)
  }

  // The edit a change asks for.
  predicate Edits(d: Deliverable, c: Change, after: Deliverable) {
    && Given(c.required, after.required, d.required) && Given(c.reviewerRequired, after.reviewerRequired, d.reviewerRequired)
    && Given(c.progress, after.progress, d.progress) && Given(c.workStatus, after.status, d.status)
    && Given(c.blocker, after.blocker, d.blocker)
    && after.(required := d.required, reviewerRequired := d.reviewerRequired, progress := d.progress, status := d.status,
              blocker := d.blocker) == d.(version := d.version + 1)
  }

  // An edit at the current version is stored exactly when its progress is a percentage, its status is one
  // of work, and progress edits do not leave blocked work without a summary. A change of plan alone does
  // not ask for the summary.
  lemma UpdatesIff(m: Milestone, op: Op, edited: Deliverable)
    requires op.UpdateOp? && op.id < |m.deliverables| && Edits(m.deliverables[op.id], op.change, edited)
    ensures var c := op.change;
      Apply(m, op).Ok? <==>
      && c.expected == m.deliverables[op.id].version
      && (c.progress.Some? ==> 0 <= c.progress.value <= 100)
      && (c.workStatus.Some? ==> c.workStatus.value in {Planned, InProgress, Blocked})
      && (c.progress.Some? || c.workStatus.Some? || c.blocker.Some? ==> edited.status != Blocked || edited.blocker != "")
  {
  }

  lemma UpdateIsRecorded(m: Milestone, op: Op)
    requires op.UpdateOp? && Apply(m, op).Ok?
    ensures op.id < |m.deliverables|
    ensures var after := Step(m, op);
      && |after.deliverables| == |m.deliverables|
      && after.deliverables == m.deliverables[op.id := after.deliverables[op.id]]
      && Edits(m.deliverables[op.id], op.change, after.deliverables[op.id])
      && after.targetDate == m.targetDate && after.archivedAt == m.archivedAt && after.decisionKeys == m.decisionKeys
  {
  }

  // Some work is placed behind the first place.
  predicate PlacedLater(m: Milestone) {
    exists i :: 0 <= i < |m.deliverables| && m.deliverables[i].order > 0
  }

  // New work is planned, empty and last; a required reviewer must be named; the milestone's status is left
  // alone. Beside work in the first place only, the place computed for it is taken, and it is refused.
  lemma CreationIsRecorded(m: Milestone, op: Op)
    requires op.CreateOp?
    ensures Apply(m, op).Ok? <==>
      && m.archivedAt == None && (op.reviewerRequired ==> op.hasReviewers)
      && (m.deliverables == [] || PlacedLater(m))
    ensures Apply(m, op).Ok? ==>
      && Step(m, op) == m.(deliverables := Step(m, op).deliverables)
      && |Step(m, op).deliverables| == |m.deliverables| + 1 && Step(m, op).deliverables[..|m.deliverables|] == m.deliverables
      && var d := Step(m, op).deliverables[|m.deliverables|];
         && d.status == Planned && d.required == op.required && d.reviewerRequired == op.reviewerRequired
         && d.blocker == "" && d.progress == 0 && d.version == 1 && d.revisions == []
         && d.archivedAt == None && d.acceptedAt == None && d.currentRevision == None && d.acceptedRevision == None
         && forall i :: 0 <= i < |m.deliverables| ==> m.deliverables[i].order < d.order
  {
    NextPlaceIsFreeIff(m.deliverables, OrderOf());
    MaxIsLargest(m.deliverables, OrderOf());
    assert forall i :: 0 <= i < |m.deliverables| ==> OrderOf()(m.deliverables[i]) == m.deliverables[i].order;
  }

  // So over every run of the services a milestone never gets a second piece of work.
  lemma {:induction false} OneDeliverablePerMilestone(target: int, keys: set<string>, ops: seq<Op>)
    ensures var m := Run(NewMilestone(target, keys), ops);
      |m.deliverables| <= 1 && forall i :: 0 <= i < |m.deliverables| ==> m.deliverables[i].order == 0
  {
    if ops != [] {
      var m, op := Run(NewMilestone(target, keys), ops[..|ops| - 1]), ops[|ops| - 1];
      OneDeliverablePerMilestone(target, keys, ops[..|ops| - 1]);
      OrdersStay(m, op);
      if op.CreateOp? {
        CreationIsRecorded(m, op);
      }
    }
  }

  lemma OrdersStay(m: Milestone, op: Op)
    ensures |m.deliverables| <= |Step(m, op).deliverables| && (!op.CreateOp? ==> |Step(m, op).deliverables| == |m.deliverables|)
    ensures forall i :: 0 <= i < |m.deliverables| ==> Step(m, op).deliverables[i].order == m.deliverables[i].order
    ensures op.CreateOp? && m.deliverables == [] && Apply(m, op).Ok? ==> Step(m, op).deliverables[0].order == 0
  {
  }

  // Work is archived at its current version unless it is required work of a completed milestone.
  lemma ArchivingIsRecorded(m: Milestone, op: Op)
    requires op.ArchiveOneOp? && op.id < |m.deliverables|
    ensures var d := m.deliverables[op.id];
      && (Apply(m, op).Ok? <==> op.expected == d.version && !(d.required && m.status == MCompleted))
      && (Apply(m, op).Ok? ==>
           Step(m, op).deliverables ==
             m.deliverables[op.id := d.(status := Archived, archivedAt := Some(op.now), version := d.version + 1)])
  {
  }

  // A new milestone is planned, at version one and without work, whatever its date.
  lemma MilestoneStarts(target: int, keys: set<string>)
    ensures var m := NewMilestone(target, keys);
      && m.status == MPlanned && m.targetDate == target && m.version == 1 && m.deliverables == []
      && m.completedAt == None && m.archivedAt == None && m.decisionKeys == keys
  {
  }

  // A milestone is moved while it is not archived, and archived with all work that is not archived yet;
  // both at its current version.
  lemma MilestoneMovesAndArchives(m: Milestone, op: Op)
    requires op.UpdateMilestoneOp? || op.ArchiveMilestoneOp?
    ensures Apply(m, op).Ok? <==> op.expected == m.version && (op.UpdateMilestoneOp? ==> m.archivedAt == None)
    ensures op.UpdateMilestoneOp? && Apply(m, op).Ok? ==>
      && Given(op.target, Step(m, op).targetDate, m.targetDate) && Step(m, op).deliverables == m.deliverables
      && Step(m, op).version == m.version + if Step(m, op).status == m.status then 1 else 2
    ensures op.ArchiveMilestoneOp? && Apply(m, op).Ok? ==>
      var after := Step(m, op);
      && after.status == MArchived && after.archivedAt == Some(op.now) && after.completedAt == None
      && after.version == m.version + 1 && |after.deliverables| == |m.deliverables|
      && forall i :: 0 <= i < |m.deliverables| ==>
           var d := m.deliverables[i];
           after.deliverables[i] == if d.status == Archived then d
                                    else d.(status := Archived, archivedAt := Some(op.now), version := d.version + 1)
  {
  }
}
