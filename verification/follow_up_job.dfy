// The follow-up job as it runs: rows updated in place, one selected follow-up after another
// (backend/apps/notifications/tasks.py, lines 246-315).
module FollowUpJob {
  import opened Clock
  import opened Results
  import opened Outcomes
  import opened Policies
  import opened FollowUps
  import D = OutcomeDesk
  import F = FollowUpEffects

  // What the job counts over a batch.
  function TotalWork(ns: seq<Notification>, ids: seq<nat>, policyOf: PolicyOf, now: int): nat
    requires Within(ids, |ns|)
  {
    if ids == [] then 0
    else
      var id := ids[|ids| - 1];
      TotalWork(ns, ids[..|ids| - 1], policyOf, now) + Work(ns[id], policyOf(ns[id].target), now)
  }

  method ChaseOne(desk: D.Desk, id: nat, p: Policy, now: int) returns (processed: nat)
    requires id < |desk.rows|
    modifies desk
    ensures desk.rows == old(desk.rows)[id := Chased(old(desk.rows)[id], p, now)]
    ensures processed == Work(old(desk.rows)[id], p, now)
  {
    desk.Reconcile(id, SCHEDULED, now);
    var n := desk.rows[id];
    if n.outcome.Completed? { return 1; }
    if n.expiresAt.Some? && n.expiresAt.value <= now {
      desk.Expire(id, now);
      return 1;
    }
    if n.dueAt.None? { return 0; }
    processed := 0;
    var reminderDue := n.dueAt.value - p.lead * MINUTE;
    var repeatDue := n.lastRemindedAt.None? || n.lastRemindedAt.value + p.repeatEvery * MINUTE <= now;
    if reminderDue <= now && repeatDue && n.reminderCount < p.max {
      n := n.(reminderCount := n.reminderCount + 1);
      n := n.(lastRemindedAt := Some(now));
      desk.rows := desk.rows[id := n];
      processed := processed + 1;
    }
    if n.dueAt.value + p.delay * MINUTE <= now && n.escalationLevel == 0 {
      n := n.(escalationLevel := 1, lastEscalatedAt := Some(now));
      desk.rows := desk.rows[id := n];
      processed := processed + 1;
    }
  }

  // process_actionable_notification_followups
  method Process(desk: D.Desk, policyOf: PolicyOf, now: int, limit: Option<int>, configured: int)
    returns (processed: nat)
    modifies desk
    ensures desk.rows == Sweep(old(desk.rows), policyOf, now, BatchSize(limit, configured))
    ensures processed == TotalWork(old(desk.rows), Batch(old(desk.rows), BatchSize(limit, configured)), policyOf, now)
    ensures Outcomes.AllSound(old(desk.rows)) ==> processed == ChangesMade(old(desk.rows), desk.rows, |desk.rows|)
  {
    var ids := Batch(desk.rows, BatchSize(limit, configured));
    BatchIsDistinct(desk.rows, BatchSize(limit, configured));
    processed := 0;
    for i := 0 to |ids|
      invariant |desk.rows| == |old(desk.rows)|
      invariant desk.rows == Swept(old(desk.rows), ids[..i], policyOf, now)
      invariant processed == TotalWork(old(desk.rows), ids[..i], policyOf, now)
    {
      assert ids[..i + 1] == ids[..i] + [ids[i]] && ids[..i + 1][..i] == ids[..i];
      assert ids[i] !in ids[..i];
      var done := ChaseOne(desk, ids[i], policyOf(desk.rows[ids[i]].target), now);
      processed := processed + done;
    }
    assert ids[..|ids|] == ids;
    if Outcomes.AllSound(old(desk.rows)) {
      CountsChanges(old(desk.rows), ids, policyOf, now);
    }
  }

  // What happened to one follow-up: reminders, escalations, and its outcome.
  function ChangesOf(n: Notification, after: Notification): int {
    (after.reminderCount - n.reminderCount) + (after.escalationLevel - n.escalationLevel) + if after.outcome != n.outcome then 1 else 0
  }

  // And to the first k of them.
  function ChangesMade(before: seq<Notification>, after: seq<Notification>, k: nat): int
    requires k <= |before| == |after|
  {
    if k == 0 then 0 else ChangesMade(before, after, k - 1) + ChangesOf(before[k - 1], after[k - 1])
  }

  lemma {:induction false} NoChanges(ns: seq<Notification>, k: nat)
    requires k <= |ns|
    ensures ChangesMade(ns, ns, k) == 0
  {
    if k > 0 {
      NoChanges(ns, k - 1);
    }
  }

  lemma {:induction false} OneMoreChange(before: seq<Notification>, after: seq<Notification>, id: nat, n: Notification, k: nat)
    requires k <= |before| == |after| && id < |before| && after[id] == before[id]
    ensures ChangesMade(before, after[id := n], k) == ChangesMade(before, after, k) + if id < k then ChangesOf(before[id], n) else 0
  {
    if k > 0 {
      OneMoreChange(before, after, id, n, k - 1);
    }
  }

  lemma SweptNext(ns: seq<Notification>, rest: seq<nat>, id: nat, policyOf: PolicyOf, now: int)
    requires id < |ns| && id !in rest
    ensures Swept(ns, rest + [id], policyOf, now) == Swept(ns, rest, policyOf, now)[id := Chased(ns[id], policyOf(ns[id].target), now)]
  {
  }

  // The job counts exactly the changes it makes.
  lemma {:induction false} CountsChanges(ns: seq<Notification>, ids: seq<nat>, policyOf: PolicyOf, now: int)
    requires Outcomes.AllSound(ns) && Within(ids, |ns|) && S.NoRepeats(ids) && forall i :: 0 <= i < |ids| ==> Open(ns[ids[i]])
    ensures TotalWork(ns, ids, policyOf, now) == ChangesMade(ns, Swept(ns, ids, policyOf, now), |ns|)
  {
    if ids == [] {
      assert Swept(ns, ids, policyOf, now) == ns;
      NoChanges(ns, |ns|);
    } else {
      var rest, id := ids[..|ids| - 1], ids[|ids| - 1];
      assert ids == rest + [id] && id !in rest;
      CountsChanges(ns, rest, policyOf, now);
      F.WorkIsChange(ns[id], policyOf(ns[id].target), now);
      var swept := Swept(ns, rest, policyOf, now);
      SweptNext(ns, rest, id, policyOf, now);
      OneMoreChange(ns, swept, id, Chased(ns[id], policyOf(ns[id].target), now), |ns|);
    }
  }

  lemma BatchIsDistinct(ns: seq<Notification>, size: nat)
    ensures S.NoRepeats(Batch(ns, size)) && forall i :: 0 <= i < |Batch(ns, size)| ==> Open(ns[Batch(ns, size)[i]])
  {
    InOrderIsOrdered(ns, |ns|);
    forall i | 0 <= i < |Batch(ns, size)| ensures Open(ns[Batch(ns, size)[i]]) {
      assert Batch(ns, size)[i] == InOrder(ns, |ns|)[i];
      assert InOrder(ns, |ns|)[i] in InOrder(ns, |ns|);
    }
  }
}
