// What one sweep does to each follow-up it reaches (backend/apps/notifications/tasks.py, lines 246-315).
module FollowUpEffects {
  import opened Clock
  import opened Results
  import opened Outcomes
  import opened Policies
  import opened FollowUps
  import opened FollowUpRuns

  // A reminder falls due from the lead time before the due date on, a full interval after the last one,
  // while fewer than the maximum were sent.
  predicate ReminderFalls(n: Notification, p: Policy, now: int) {
    && n.dueAt.Some? && n.dueAt.value - p.lead * MINUTE <= now && n.reminderCount < p.max
    && (n.lastRemindedAt.Some? ==> n.lastRemindedAt.value + p.repeatEvery * MINUTE <= now)
  }

  // An escalation falls due once, the delay after the due date.
  predicate EscalationFalls(n: Notification, p: Policy, now: int) {
    n.dueAt.Some? && n.dueAt.value + p.delay * MINUTE <= now && n.escalationLevel == 0
  }

  // The sweep reaches the follow-up: it is open, and fewer open ones than the batch holds come before it.
  predicate Reached(ns: seq<Notification>, size: nat, id: nat)
    requires id < |ns|
  {
    ns[id].active && ns[id].outcome == Pending && |set j: nat | j < |ns| && Open(ns[j]) && Before(ns, j, id)| < size
  }

  // A reached follow-up past its expiry is expired and not chased. Otherwise it gains exactly one reminder
  // stamped now if one is due and none if not, and is escalated now if that is due and not if not. What
  // is not reached stays as it is.
  lemma SweepChases(ns: seq<Notification>, policyOf: PolicyOf, now: int, size: nat, id: nat)
    requires Outcomes.AllSound(ns) && id < |ns|
    ensures var n, after, p := ns[id], Sweep(ns, policyOf, now, size)[id], policyOf(ns[id].target);
      if !Reached(ns, size, id) then after == n
      else if n.expiresAt.Some? && n.expiresAt.value <= now then
        after == n.(outcome := Expired, expiredAt := Some(now), active := false)
      else
        && after.reminderCount == n.reminderCount + (if ReminderFalls(n, p, now) then 1 else 0)
        && after.lastRemindedAt == (if ReminderFalls(n, p, now) then Some(now) else n.lastRemindedAt)
        && after.escalationLevel == (if EscalationFalls(n, p, now) then 1 else n.escalationLevel)
        && after.lastEscalatedAt == (if EscalationFalls(n, p, now) then Some(now) else n.lastEscalatedAt)
        && after.(reminderCount := n.reminderCount, lastRemindedAt := n.lastRemindedAt,
                  escalationLevel := n.escalationLevel, lastEscalatedAt := n.lastEscalatedAt) == n
  {
    ReachedIff(ns, size, id);
    assert (set j: nat | j < |ns| && Open(ns[j]) && Before(ns, j, id)) == Ahead(ns, id);
    SweepsCompleteNothing(ns[id], policyOf(ns[id].target), now);
  }

  // Earlier due dates come first and rows without one last; equal dates go by primary key.
  lemma BeforeMeans(ns: seq<Notification>, a: nat, b: nat)
    requires a < |ns| && b < |ns|
    ensures ns[a].dueAt.Some? && ns[b].dueAt.Some? && ns[a].dueAt.value < ns[b].dueAt.value ==> Before(ns, a, b) && !Before(ns, b, a)
    ensures ns[a].dueAt.Some? && ns[b].dueAt.None? ==> Before(ns, a, b) && !Before(ns, b, a)
    ensures ns[a].dueAt == ns[b].dueAt ==> (Before(ns, a, b) <==> a < b)
  {
  }

  lemma StillReached(ns: seq<Notification>, policyOf: PolicyOf, now: int, size: nat, id: nat)
    requires Outcomes.AllSound(ns) && id < |ns| && Reached(ns, size, id)
    requires ns[id].expiresAt.Some? ==> now < ns[id].expiresAt.value
    ensures Reached(Sweep(ns, policyOf, now, size), size, id)
  {
    var once := Sweep(ns, policyOf, now, size);
    SweepChases(ns, policyOf, now, size, id);
    NextKeepsSound(ns, policyOf, SweepMove(now, size));
    assert forall j :: 0 <= j < |ns| ==> MovesUp(ns[j], once[j]);
    Smaller(set j: nat | j < |once| && Open(once[j]) && Before(once, j, id), set j: nat | j < |ns| && Open(ns[j]) && Before(ns, j, id));
  }

  // A follow-up that was reached is reached again while it lasts, so it is reminded by every sweep that
  // finds a reminder due, up to the maximum: two such sweeps an interval apart remind twice.
  lemma TwoSweepsRemindTwice(ns: seq<Notification>, policyOf: PolicyOf, now: int, later: int, size: nat, id: nat)
    requires Outcomes.AllSound(ns) && id < |ns| && Reached(ns, size, id)
    requires ns[id].expiresAt.Some? ==> now < ns[id].expiresAt.value && later < ns[id].expiresAt.value
    requires ReminderFalls(ns[id], policyOf(ns[id].target), now)
    requires ns[id].reminderCount + 1 < policyOf(ns[id].target).max
    requires now <= later && now + policyOf(ns[id].target).repeatEvery * MINUTE <= later
    ensures Sweep(Sweep(ns, policyOf, now, size), policyOf, later, size)[id].reminderCount == ns[id].reminderCount + 2
  {
    var once := Sweep(ns, policyOf, now, size);
    SweepChases(ns, policyOf, now, size, id);
    StillReached(ns, policyOf, now, size, id);
    NextKeepsSound(ns, policyOf, SweepMove(now, size));
    SweepChases(once, policyOf, later, size, id);
  }

  // What the job counts for a reached follow-up: its reminder, its escalation, or its expiry.
  lemma WorkIsChange(n: Notification, p: Policy, now: int)
    requires Sound(n) && Open(n)
    ensures var after := Chased(n, p, now);
      Work(n, p, now) == (after.reminderCount - n.reminderCount) + (after.escalationLevel - n.escalationLevel)
        + if after.outcome != n.outcome then 1 else 0
  {
    SweepsCompleteNothing(n, p, now);
  }

  // The batch size asked for, between one and what is configured; nothing asked for means all of it.
  lemma BatchSizeIs(limit: Option<int>, configured: int)
    requires configured >= 1
    ensures BatchSize(limit, configured) ==
      if limit.None? || limit.value == 0 || limit.value > configured then configured
      else if limit.value < 1 then 1 else limit.value
  {
  }
}
