// What became of a notification that asks for something: acknowledged, completed, expired or no
// longer available (backend/apps/notifications/outcome_services.py).
module Outcomes {
  import opened Results

  datatype Requirement = Informational | Acknowledgement | Action

  datatype Outcome = NotRequired | Pending | Acknowledged | Completed | Expired | Unavailable

  // The record a notification is about; a record belongs to one project.
  datatype Target =
    | RevisionTarget(deliverable: nat, revision: nat)
    | RiskTarget(id: nat)
    | ReportTarget(id: nat)
    | OtherTarget(kind: string, name: string)

  datatype Purpose = AdvisorDecision | ReviewerAction(reviewer: int) | OtherPurpose(purpose: string)

  // A deduplication key names the record and what is wanted of it; it may be blank.
  datatype Key = NoKey | Key(target: Target, purpose: Purpose)

  datatype Event =
    | DeliverableRecommended
    | DeliverableDecided
    | RiskAccepted
    | RiskResolved
    | ReportReviewed
    | OtherEvent(action: string)

  datatype Notification = Notification(
    recipient: int,
    requirement: Requirement,
    outcome: Outcome,
    active: bool,
    key: Key,
    target: Target,
    dueAt: Option<int>,
    expiresAt: Option<int>,
    acknowledgedAt: Option<int>,
    completedAt: Option<int>,
    expiredAt: Option<int>,
    unavailableAt: Option<int>,
    completion: Option<Event>,
    reminderCount: nat,
    lastRemindedAt: Option<int>,
    escalationLevel: nat,
    lastEscalatedAt: Option<int>)

  datatype Refusal = NotFound | Forbidden | NothingToAcknowledge | TooLate | NoFollowUp

  // ---- Creation -------------------------------------------------------------------------

  function Fresh(recipient: int, requirement: Requirement, active: bool, key: Key, target: Target,
                 dueAt: Option<int>, expiresAt: Option<int>): Notification {
    Notification(recipient, requirement, if requirement.Informational? then NotRequired else Pending, active, key, target,
                 dueAt, expiresAt, None, None, None, None, None, 0, None, 0, None)
  }

  predicate OpenWith(n: Notification, recipient: int, key: Key) {
    n.active && n.recipient == recipient && n.key == key
  }

  predicate HasOpen(ns: seq<Notification>, recipient: int, key: Key) {
    exists i :: 0 <= i < |ns| && OpenWith(ns[i], recipient, key)
  }

  // create_follow_up_notification: the unique index turns a second open follow-up with the same
  // key away, and the check constraint an informational one; neither leaves a trace.
  function FollowedUp(ns: seq<Notification>, recipient: int, requirement: Requirement, key: Key, target: Target,
                      dueAt: Option<int>, expiresAt: Option<int>): seq<Notification> {
    if requirement.Informational? || (key != NoKey && HasOpen(ns, recipient, key)) then ns
    else ns + [Fresh(recipient, requirement, true, key, target, dueAt, expiresAt)]
  }

  // ---- Outcomes -------------------------------------------------------------------------

  // acknowledge_notification
  function AcknowledgedBy(n: Notification, actor: int, now: int): Result<Notification, Refusal> {
    if n.recipient != actor then Err(Forbidden)
    else if !n.requirement.Acknowledgement? then Err(NothingToAcknowledge)
    else if n.outcome.Acknowledged? then Ok(n)
    else if !n.outcome.Pending? then Err(TooLate)
    else Ok(n.(outcome := Acknowledged, acknowledgedAt := Some(now), active := false))
  }

  // expire_notification
  function ExpiredAt(n: Notification, now: int): Notification {
    if n.outcome.Pending? then n.(outcome := Expired, expiredAt := Some(now), active := false) else n
  }

  // mark_notification_unavailable
  function WithdrawnAt(n: Notification, now: int): Notification {
    if n.outcome.Pending? then n.(outcome := Unavailable, unavailableAt := Some(now), active := false) else n
  }

  // The registered action resolvers.
  predicate Resolves(target: Target, event: Event) {
    match target
    case RevisionTarget(_, _) => event.DeliverableRecommended? || event.DeliverableDecided?
    case RiskTarget(_) => event.RiskAccepted? || event.RiskResolved?
    case ReportTarget(_) => event.ReportReviewed?
    case OtherTarget(_, _) => false
  }

  // reconcile_authoritative_action
  function Reconciled(n: Notification, event: Event, now: int): Notification {
    if !n.requirement.Action? || n.outcome.Completed? || !Resolves(n.target, event) then n
    else n.(outcome := Completed, completedAt := Some(now), completion := Some(event), active := false)
  }

  predicate Awaits(n: Notification, target: Target) {
    n.target == target && n.outcome.Pending? && n.active
  }

  function Heard(n: Notification, target: Target, event: Event, now: int): Notification {
    if Awaits(n, target) then Reconciled(n, event, now) else n
  }

  // reconcile_notifications_for_event
  function AfterEvent(ns: seq<Notification>, target: Target, event: Event, now: int): (r: seq<Notification>)
    ensures |r| == |ns|
    ensures forall i :: 0 <= i < |ns| ==> r[i] == Heard(ns[i], target, event, now)
  {
    seq(|ns|, i requires 0 <= i < |ns| => Heard(ns[i], target, event, now))
  }

  // ---- Runs -----------------------------------------------------------------------------

  datatype Op =
    | NotifyOp(recipient: int, requirement: Requirement, key: Key, target: Target, dueAt: Option<int>, expiresAt: Option<int>)
    | FollowUpOp(recipient: int, requirement: Requirement, key: Key, target: Target, dueAt: Option<int>, expiresAt: Option<int>)
    | AcknowledgeOp(id: nat, actor: int, now: int)
    | ExpireOp(id: nat, now: int)
    | WithdrawOp(id: nat, now: int)
    | ReconcileOp(id: nat, event: Event, now: int)
    | EventOp(target: Target, event: Event, now: int)

  function Step(ns: seq<Notification>, op: Op): seq<Notification> {
    match op
    case NotifyOp(recipient, requirement, key, target, dueAt, expiresAt) =>
      ns + [Fresh(recipient, requirement, false, key, target, dueAt, expiresAt)]
    case FollowUpOp(recipient, requirement, key, target, dueAt, expiresAt) =>
      FollowedUp(ns, recipient, requirement, key, target, dueAt, expiresAt)
    case AcknowledgeOp(id, actor, now) =>
      if id < |ns| && AcknowledgedBy(ns[id], actor, now).Ok? then ns[id := AcknowledgedBy(ns[id], actor, now).value] else ns
    case ExpireOp(id, now) => if id < |ns| then ns[id := ExpiredAt(ns[id], now)] else ns
    case WithdrawOp(id, now) => if id < |ns| then ns[id := WithdrawnAt(ns[id], now)] else ns
    case ReconcileOp(id, event, now) => if id < |ns| then ns[id := Reconciled(ns[id], event, now)] else ns
    case EventOp(target, event, now) => AfterEvent(ns, target, event, now)
  }

  // ---- What every step keeps ------------------------------------------------------------

  // An open follow-up is pending; only acknowledgements are acknowledged; an outcome has its
  // timestamp.
  predicate Sound(n: Notification) {
    && (n.active ==> n.outcome.Pending?)
    && (n.requirement.Informational? <==> n.outcome.NotRequired?)
    && (n.outcome.Acknowledged? ==> n.requirement.Acknowledgement? && n.acknowledgedAt.Some?)
    && (n.outcome.Completed? <==> n.completedAt.Some?) && (n.outcome.Completed? <==> n.completion.Some?)
    && (n.outcome.Completed? ==> n.requirement.Action? && Resolves(n.target, n.completion.value))
    && (n.outcome.Expired? ==> n.expiredAt.Some?)
    && (n.outcome.Unavailable? ==> n.unavailableAt.Some?)
  }

  // At most one open follow-up per recipient and key.
  ghost predicate OneOpen(ns: seq<Notification>) {
    forall i, j :: 0 <= i < j < |ns| && ns[i].active && ns[j].active && ns[i].key != NoKey ==>
      ns[i].recipient != ns[j].recipient || ns[i].key != ns[j].key
  }

  ghost predicate AllSound(ns: seq<Notification>) {
    forall i :: 0 <= i < |ns| ==> Sound(ns[i])
  }

  // Outcomes move from PENDING to any other, and from there only to COMPLETED, and only after
  // expiry or withdrawal; a closed follow-up never opens again.
  predicate MovesUp(before: Notification, after: Notification) {
    && (before.outcome == after.outcome
        || (before.outcome.Pending? && !after.outcome.NotRequired?)
        || ((before.outcome.Expired? || before.outcome.Unavailable?) && after.outcome.Completed?))
    && (after.active ==> before.active)
    && before.recipient == after.recipient && before.key == after.key && before.target == after.target
    && before.requirement == after.requirement && before.dueAt == after.dueAt && before.expiresAt == after.expiresAt
  }

  ghost predicate AllMoveUp(before: seq<Notification>, after: seq<Notification>) {
    |before| <= |after| && forall i :: 0 <= i < |before| ==> MovesUp(before[i], after[i])
  }

  lemma StepKeepsSound(ns: seq<Notification>, op: Op)
    requires AllSound(ns)
    ensures AllSound(Step(ns, op)) && AllMoveUp(ns, Step(ns, op))
  {
  }

  lemma FewerOpen(ns: seq<Notification>, after: seq<Notification>)
    requires OneOpen(ns) && |ns| == |after| && AllMoveUp(ns, after)
    ensures OneOpen(after)
  {
  }

  lemma StepKeepsOneOpen(ns: seq<Notification>, op: Op)
    requires AllSound(ns) && OneOpen(ns)
    ensures OneOpen(Step(ns, op))
  {
    StepKeepsSound(ns, op);
    if |Step(ns, op)| == |ns| {
      FewerOpen(ns, Step(ns, op));
    }
  }

  function Run(ns: seq<Notification>, ops: seq<Op>): seq<Notification> {
    if ops == [] then ns else Step(Run(ns, ops[..|ops| - 1]), ops[|ops| - 1])
  }

  lemma {:induction false} RunsKeepSound(ops: seq<Op>)
    ensures AllSound(Run([], ops)) && OneOpen(Run([], ops))
  {
    if ops != [] {
      RunsKeepSound(ops[..|ops| - 1]);
      StepKeepsSound(Run([], ops[..|ops| - 1]), ops[|ops| - 1]);
      StepKeepsOneOpen(Run([], ops[..|ops| - 1]), ops[|ops| - 1]);
    }
  }

  // Whatever happens later, no outcome goes back and no closed follow-up opens again.
  lemma {:induction false} OutcomesOnlyMoveUp(ns: seq<Notification>, ops: seq<Op>)
    requires AllSound(ns)
    ensures AllSound(Run(ns, ops)) && AllMoveUp(ns, Run(ns, ops))
  {
    if ops != [] {
      OutcomesOnlyMoveUp(ns, ops[..|ops| - 1]);
      StepKeepsSound(Run(ns, ops[..|ops| - 1]), ops[|ops| - 1]);
    }
  }

  // An event closes every open follow-up that waits for it, and touches nothing else.
  lemma EventClosesExactly(ns: seq<Notification>, target: Target, event: Event, now: int, i: nat)
    requires AllSound(ns) && i < |ns|
    ensures var after := AfterEvent(ns, target, event, now)[i];
      if ns[i].active && ns[i].target == target && ns[i].requirement.Action? && Resolves(target, event)
      then after.outcome.Completed? && !after.active && after.completion == Some(event)
      else after == ns[i]
  {
  }
}
