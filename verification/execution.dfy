// Deliverables of one milestone: submissions, review, final decisions, and the milestone status
// derived from them (backend/apps/projects/execution_services.py).
module Execution {
  import opened Results
  import opened Numbering

  datatype WorkStatus = Planned | InProgress | Blocked | Submitted | UnderReview | ChangesRequested | Accepted | Archived

  datatype MilestoneStatus = MPlanned | MInProgress | MBlocked | MOverdue | MCompleted | MArchived

  datatype Verdict = Accept | Return

  datatype RevisionState = Open | RecommendedAccept | RecommendedReturn | FinallyAccepted | FinallyReturned

  // `recommendations` holds, by person, the recommendation that is not superseded.
  datatype Revision = Revision(
    number: int,
    key: string,
    state: RevisionState,
    recommendations: map<int, Verdict>,
    decision: Option<Verdict>)

  datatype Deliverable = Deliverable(
    status: WorkStatus,
    required: bool,
    reviewerRequired: bool,
    blocker: string,
    progress: int,
    archivedAt: Option<int>,
    acceptedAt: Option<int>,
    version: int,
    revisions: seq<Revision>,
    currentRevision: Option<nat>,
    acceptedRevision: Option<nat>,
    order: nat)

  // `decisionKeys` are the retry keys of final decisions used so far in the project.
  datatype Milestone = Milestone(
    status: MilestoneStatus,
    targetDate: int,
    completedAt: Option<int>,
    archivedAt: Option<int>,
    version: int,
    deliverables: seq<Deliverable>,
    decisionKeys: set<string>)

  datatype Refusal =
    | NotFound
    | StaleVersion
    | MilestoneArchived
    | MilestoneCompleted
    | InvalidProgress
    | InvalidStatus
    | BlockerRequired
    | NoNewRevision
    | EvidenceRequired
    | ReviewerRequired
    | RationaleRequired
    | RecommendationRequired
    | KeyTaken
    | OrderTaken

  // ---- Milestone status -----------------------------------------------------------------

  predicate Counts(d: Deliverable) {
    d.required && d.archivedAt.None?
  }

  predicate AnyCounts(ds: seq<Deliverable>) {
    exists i :: 0 <= i < |ds| && Counts(ds[i])
  }

  predicate AllAccepted(ds: seq<Deliverable>) {
    forall i :: 0 <= i < |ds| && Counts(ds[i]) ==> ds[i].status.Accepted?
  }

  predicate AnyBlocked(ds: seq<Deliverable>) {
    exists i :: 0 <= i < |ds| && Counts(ds[i]) && ds[i].status.Blocked?
  }

  predicate Working(s: WorkStatus) {
    s.InProgress? || s.Submitted? || s.UnderReview? || s.ChangesRequested?
  }

  predicate AnyWorking(ds: seq<Deliverable>) {
    exists i :: 0 <= i < |ds| && Counts(ds[i]) && Working(ds[i].status)
  }

  function Derived(m: Milestone, today: int): MilestoneStatus {
    if m.archivedAt.Some? then MArchived
    else if AnyCounts(m.deliverables) && AllAccepted(m.deliverables) then MCompleted
    else if AnyBlocked(m.deliverables) then MBlocked
    else if m.targetDate < today then MOverdue
    else if AnyWorking(m.deliverables) then MInProgress
    else MPlanned
  }

  // reconcile_milestone
  function Reconciled(m: Milestone, now: int, today: int): Milestone {
    var status := Derived(m, today);
    m.(status := status,
       completedAt := if status.MCompleted? then (if m.completedAt.Some? then m.completedAt else Some(now)) else None,
       version := if m.status != status then m.version + 1 else m.version)
  }

  // ---- Operations -----------------------------------------------------------------------

  type Reply = Result<Milestone, Refusal>

  function WithDeliverable(m: Milestone, id: nat, d: Deliverable): Milestone
    requires id < |m.deliverables|
  {
    m.(deliverables := m.deliverables[id := d])
  }

  function OrderOf(): Deliverable -> int { (d: Deliverable) => d.order }

  // The unique constraint unique_milestone_deliverable_order.
  predicate OrderUsed(ds: seq<Deliverable>, order: int) {
    exists i :: 0 <= i < |ds| && ds[i].order == order
  }

  // create_deliverable leaves the milestone status alone.
  function Create(m: Milestone, required: bool, reviewerRequired: bool, hasReviewers: bool): Reply {
    if m.archivedAt.Some? then Err(MilestoneArchived)
    else if reviewerRequired && !hasReviewers then Err(ReviewerRequired)
    else
      var order := NextPlace(m.deliverables, OrderOf());
      if OrderUsed(m.deliverables, order) then Err(OrderTaken)
      else Ok(m.(deliverables := m.deliverables
        + [Deliverable(Planned, required, reviewerRequired, "", 0, None, None, 1, [], None, None, order)]))
  }

  datatype Change = Change(expected: int, required: Option<bool>, reviewerRequired: Option<bool>, progress: Option<int>,
                           workStatus: Option<WorkStatus>, blocker: Option<string>) // blocker already stripped

  predicate IsWork(s: WorkStatus) { s.Planned? || s.InProgress? || s.Blocked? }

  // The planning fields.
  function Planning(d: Deliverable, c: Change): Deliverable {
    d.(required := if c.required.Some? then c.required.value else d.required,
       reviewerRequired := if c.reviewerRequired.Some? then c.reviewerRequired.value else d.reviewerRequired)
  }

  // The progress fields; a blocked deliverable needs a summary.
  function Progressing(d: Deliverable, c: Change): Result<Deliverable, Refusal> {
    if c.progress.Some? && !(0 <= c.progress.value <= 100) then Err(InvalidProgress)
    else if c.workStatus.Some? && !IsWork(c.workStatus.value) then Err(InvalidStatus)
    else
      var changed := d.(
        progress := if c.progress.Some? then c.progress.value else d.progress,
        status := if c.workStatus.Some? then c.workStatus.value else d.status,
        blocker := if c.blocker.Some? then c.blocker.value else d.blocker);
      if (c.progress.Some? || c.workStatus.Some? || c.blocker.Some?) && changed.status.Blocked? && changed.blocker == ""
      then Err(BlockerRequired)
      else Ok(changed)
  }

  function Edited(d: Deliverable, c: Change): Result<Deliverable, Refusal> {
    if d.version != c.expected then Err(StaleVersion)
    else
      var changed := Progressing(Planning(d, c), c);
      if changed.Err? then changed else Ok(changed.value.(version := d.version + 1))
  }

  function Update(m: Milestone, id: nat, c: Change, now: int, today: int): Reply {
    if id >= |m.deliverables| then Err(NotFound)
    else
      var changed := Edited(m.deliverables[id], c);
      if changed.Err? then Err(changed.error)
      else Ok(Reconciled(WithDeliverable(m, id, changed.value), now, today))
  }

  function ArchiveOne(m: Milestone, id: nat, expected: int, now: int, today: int): Reply {
    if id >= |m.deliverables| then Err(NotFound)
    else
      var d := m.deliverables[id];
      if d.version != expected then Err(StaleVersion)
      else if d.required && m.status.MCompleted? then Err(MilestoneCompleted)
      else
        var archived := d.(status := Archived, archivedAt := Some(now), version := d.version + 1);
        Ok(Reconciled(WithDeliverable(m, id, archived), now, today))
  }

  predicate RevisionKeyUsed(revisions: seq<Revision>, key: string) {
    exists i :: 0 <= i < |revisions| && revisions[i].key == key
  }

  function NumberOf(): Revision -> int { (r: Revision) => r.number }

  // submit_deliverable; a used retry key returns the earlier revision and changes nothing.
  function Submit(m: Milestone, id: nat, key: string, evidence: nat, hasReviewer: bool, now: int, today: int): Reply {
    if id >= |m.deliverables| then Err(NotFound)
    else
      var d := m.deliverables[id];
      if key != "" && RevisionKeyUsed(d.revisions, key) then Ok(m)
      else if d.status.Accepted? || d.status.Archived? then Err(NoNewRevision)
      else if evidence == 0 then Err(EvidenceRequired)
      else if d.reviewerRequired && !hasReviewer then Err(ReviewerRequired)
      else
        var submitted := d.(
          revisions := d.revisions + [Revision(MaxNumber(d.revisions, NumberOf()) + 1, key, Open, map[], None)],
          currentRevision := Some(|d.revisions|),
          status := if d.reviewerRequired then UnderReview else Submitted,
          version := d.version + 1);
        Ok(Reconciled(WithDeliverable(m, id, submitted), now, today))
  }

  // recommend_deliverable: the same person's open recommendation is replaced; a final decision is
  // not looked at, and the milestone is not reconciled.
  function Recommend(m: Milestone, id: nat, r: nat, reviewer: int, verdict: Verdict, rationale: string): Reply {
    if id >= |m.deliverables| || r >= |m.deliverables[id].revisions| then Err(NotFound)
    else if rationale == "" then Err(RationaleRequired)
    else
      var d := m.deliverables[id];
      var revision := d.revisions[r].(
        recommendations := d.revisions[r].recommendations[reviewer := verdict],
        state := if verdict.Accept? then RecommendedAccept else RecommendedReturn);
      Ok(WithDeliverable(m, id, d.(revisions := d.revisions[r := revision])))
  }

  // decide_deliverable: the first decision on a revision stands.
  function Decide(m: Milestone, id: nat, r: nat, verdict: Verdict, rationale: string, key: string, now: int, today: int): Reply {
    if id >= |m.deliverables| || r >= |m.deliverables[id].revisions| then Err(NotFound)
    else
      var d := m.deliverables[id];
      var revision := d.revisions[r];
      if revision.decision.Some? then Ok(m)
      else if verdict.Return? && rationale == "" then Err(RationaleRequired)
      else if d.reviewerRequired && revision.recommendations == map[] then Err(RecommendationRequired)
      else if key != "" && key in m.decisionKeys then Err(KeyTaken)
      else
        var keyed := if key != "" then m.(decisionKeys := m.decisionKeys + {key}) else m;
        var closed := revision.(decision := Some(verdict), state := if verdict.Accept? then FinallyAccepted else FinallyReturned);
        var decided := d.(
          revisions := d.revisions[r := closed],
          status := if verdict.Accept? then Accepted else ChangesRequested,
          acceptedRevision := if verdict.Accept? then Some(r) else None,
          acceptedAt := if verdict.Accept? then Some(now) else None,
          progress := if verdict.Accept? then 100 else d.progress,
          version := d.version + 1);
        Ok(Reconciled(WithDeliverable(keyed, id, decided), now, today))
  }

  function UpdateMilestone(m: Milestone, expected: int, target: Option<int>, now: int, today: int): Reply {
    if m.version != expected then Err(StaleVersion)
    else if m.archivedAt.Some? then Err(MilestoneArchived)
    else
      var changed := m.(targetDate := if target.Some? then target.value else m.targetDate, version := m.version + 1);
      Ok(Reconciled(changed, now, today))
  }

  function ArchivedWith(d: Deliverable, now: int): Deliverable {
    if d.status.Archived? then d else d.(status := Archived, archivedAt := Some(now), version := d.version + 1)
  }

  function ArchivedAll(ds: seq<Deliverable>, now: int): (r: seq<Deliverable>)
    ensures |r| == |ds|
    ensures forall i :: 0 <= i < |ds| ==> r[i] == ArchivedWith(ds[i], now)
  {
    seq(|ds|, i requires 0 <= i < |ds| => ArchivedWith(ds[i], now))
  }

  function ArchiveMilestone(m: Milestone, expected: int, now: int): Reply {
    if m.version != expected then Err(StaleVersion)
    else Ok(m.(status := MArchived, archivedAt := Some(now), completedAt := None, version := m.version + 1,
               deliverables := ArchivedAll(m.deliverables, now)))
  }

  datatype Op =
    | CreateOp(required: bool, reviewerRequired: bool, hasReviewers: bool)
    | UpdateOp(id: nat, change: Change, now: int, today: int)
    | ArchiveOneOp(id: nat, expected: int, now: int, today: int)
    | SubmitOp(id: nat, key: string, evidence: nat, hasReviewer: bool, now: int, today: int)
    | RecommendOp(id: nat, revision: nat, reviewer: int, verdict: Verdict, rationale: string)
    | DecideOp(id: nat, revision: nat, verdict: Verdict, rationale: string, key: string, now: int, today: int)
    | UpdateMilestoneOp(expected: int, target: Option<int>, now: int, today: int)
    | ArchiveMilestoneOp(expected: int, now: int)

  function Apply(m: Milestone, op: Op): Reply {
    match op
    case CreateOp(required, reviewer, has) => Create(m, required, reviewer, has)
    case UpdateOp(id, c, now, today) => Update(m, id, c, now, today)
    case ArchiveOneOp(id, expected, now, today) => ArchiveOne(m, id, expected, now, today)
    case SubmitOp(id, key, evidence, has, now, today) => Submit(m, id, key, evidence, has, now, today)
    case RecommendOp(id, r, reviewer, v, why) => Recommend(m, id, r, reviewer, v, why)
    case DecideOp(id, r, v, why, key, now, today) => Decide(m, id, r, v, why, key, now, today)
    case UpdateMilestoneOp(expected, target, now, today) => UpdateMilestone(m, expected, target, now, today)
    case ArchiveMilestoneOp(expected, now) => ArchiveMilestone(m, expected, now)
  }

  function Step(m: Milestone, op: Op): Milestone {
    var reply := Apply(m, op);
    if reply.Ok? then reply.value else m
  }

  function Run(m: Milestone, ops: seq<Op>): Milestone {
    if ops == [] then m else Step(Run(m, ops[..|ops| - 1]), ops[|ops| - 1])
  }

  // create_milestone; the project may already have used decision keys elsewhere.
  function NewMilestone(target: int, keys: set<string>): Milestone {
    Milestone(MPlanned, target, None, None, 1, [], keys)
  }
}
