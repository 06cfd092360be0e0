// What each outcome call does to its notification, and to no other
// (backend/apps/notifications/outcome_services.py, lines 25-169).
module OutcomeEffects {
  import opened Results
  import opened Outcomes

  // ---- Creation -------------------------------------------------------------------------

  // A new row has just been asked for: pending if it asks for something, and nothing has happened to it.
  predicate IsNew(n: Notification, recipient: int, requirement: Requirement, key: Key, target: Target,
                  dueAt: Option<int>, expiresAt: Option<int>) {
    && n.recipient == recipient && n.requirement == requirement && n.key == key && n.target == target
    && n.dueAt == dueAt && n.expiresAt == expiresAt
    && n.outcome == (if requirement == Informational then NotRequired else Pending)
    && n.acknowledgedAt == None && n.completedAt == None && n.expiredAt == None && n.unavailableAt == None && n.completion == None
    && n.reminderCount == 0 && n.lastRemindedAt == None && n.escalationLevel == 0 && n.lastEscalatedAt == None
  }

  // A follow-up is appended, open, unless it asks for nothing or one with its key is open for the
  // recipient; a plain notification is always appended and never open.
  lemma CreationAppends(ns: seq<Notification>, op: Op)
    requires op.NotifyOp? || op.FollowUpOp?
    ensures var after := Step(ns, op);
      if op.FollowUpOp? && (op.requirement == Informational || (op.key != NoKey
           && exists i :: 0 <= i < |ns| && ns[i].active && ns[i].recipient == op.recipient && ns[i].key == op.key))
      then after == ns
      else
        && |after| == |ns| + 1 && after[..|ns|] == ns && after[|ns|].active == op.FollowUpOp?
        && IsNew(after[|ns|], op.recipient, op.requirement, op.key, op.target, op.dueAt, op.expiresAt)
  {
    if HasOpen(ns, op.recipient, op.key) {
      var i :| 0 <= i < |ns| && OpenWith(ns[i], op.recipient, op.key);
      assert ns[i].active && ns[i].recipient == op.recipient && ns[i].key == op.key;
    }
    if i :| 0 <= i < |ns| && ns[i].active && ns[i].recipient == op.recipient && ns[i].key == op.key {
      assert OpenWith(ns[i], op.recipient, op.key);
    }
  }

  // ---- Outcomes -------------------------------------------------------------------------

  // The events that settle an action, by what the action is about.
  lemma EventsResolve(target: Target, event: Event)
    ensures event == DeliverableRecommended || event == DeliverableDecided ==> (Resolves(target, event) <==> target.RevisionTarget?)
    ensures event == RiskAccepted || event == RiskResolved ==> (Resolves(target, event) <==> target.RiskTarget?)
    ensures event == ReportReviewed ==> (Resolves(target, event) <==> target.ReportTarget?)
    ensures event.OtherEvent? ==> !Resolves(target, event)
  {
  }

  // Only the recipient acknowledges, only what asks for it, and only while it is pending or after having
  // done so before.
  lemma AcknowledgesIff(n: Notification, actor: int, now: int)
    ensures AcknowledgedBy(n, actor, now).Ok? <==>
      n.recipient == actor && n.requirement == Acknowledgement && (n.outcome == Pending || n.outcome == Acknowledged)
    ensures AcknowledgedBy(n, actor, now).Ok? ==>
      AcknowledgedBy(n, actor, now).value ==
        if n.outcome == Pending then n.(outcome := Acknowledged, acknowledgedAt := Some(now), active := false) else n
    ensures AcknowledgedBy(n, actor, now) == Err(Forbidden) <==> n.recipient != actor
    ensures AcknowledgedBy(n, actor, now) == Err(TooLate) ==> n.outcome != Pending && n.outcome != Acknowledged
    ensures AcknowledgedBy(n, actor, now) == Err(NothingToAcknowledge) ==> n.requirement != Acknowledgement
  {
  }

  // What the calls on one notification leave of it. A reconciled action is completed even after it has
  // expired or been withdrawn.
  predicate Becomes(n: Notification, op: Op, after: Notification)
    requires op.AcknowledgeOp? || op.ExpireOp? || op.WithdrawOp? || op.ReconcileOp?
  {
    match op
    case AcknowledgeOp(_, actor, now) =>
      after == if n.recipient == actor && n.requirement == Acknowledgement && n.outcome == Pending
               then n.(outcome := Acknowledged, acknowledgedAt := Some(now), active := false) else n
    case ExpireOp(_, now) =>
      after == if n.outcome == Pending then n.(outcome := Expired, expiredAt := Some(now), active := false) else n
    case WithdrawOp(_, now) =>
      after == if n.outcome == Pending then n.(outcome := Unavailable, unavailableAt := Some(now), active := false) else n
    case ReconcileOp(_, event, now) =>
      after == if n.requirement == Action && n.outcome != Completed && Resolves(n.target, event)
               then n.(outcome := Completed, completedAt := Some(now), completion := Some(event), active := false) else n
  }

  lemma CallChangesOne(ns: seq<Notification>, op: Op)
    requires (op.AcknowledgeOp? || op.ExpireOp? || op.WithdrawOp? || op.ReconcileOp?) && op.id < |ns|
    ensures var after := Step(ns, op);
      && |after| == |ns| && Becomes(ns[op.id], op, after[op.id])
      && forall i :: 0 <= i < |ns| && i != op.id ==> after[i] == ns[i]
  {
  }

  // An event completes, now, exactly the open pending actions on its target that it resolves.
  lemma EventCompletes(ns: seq<Notification>, op: Op)
    requires op.EventOp?
    ensures var after := Step(ns, op);
      && |after| == |ns|
      && forall i :: 0 <= i < |ns| ==>
           after[i] ==
             if ns[i].active && ns[i].outcome == Pending && ns[i].target == op.target && ns[i].requirement == Action
                && Resolves(op.target, op.event)
             then ns[i].(outcome := Completed, completedAt := Some(op.now), completion := Some(op.event), active := false)
             else ns[i]
  {
  }
}
