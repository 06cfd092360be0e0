// The delivery job as it runs: notification rows and their attempts updated in place, one selected
// notification after another (backend/apps/notifications/tasks.py, lines 129-191, and services.py,
// lines 27-211).
module Outboxes {
  import opened Results
  import opened Delivery

  // How many messages a sweep saw taken before it ended.
  function TakenBy(ids: seq<nat>, fates: seq<Fate>): nat
    decreases |ids|
  {
    if ids == [] || fates == [] then 0
    else if fates[0].outcome.Killed? then 0
    else (if fates[0].deliverable && fates[0].outcome.Taken? then 1 else 0) + TakenBy(ids[1..], fates[1..])
  }

  class Outbox {
    var rows: seq<Notification>

    constructor ()
      ensures rows == []
    {
      rows := [];
    }

    // enqueue_notification
    method Enqueue(policy: Policy, candidate: int, profile: Q.Profile, security: bool, enabled: bool, now: int) returns (id: nat)
      modifies this
      ensures id == |old(rows)| && rows == old(rows) + [Enqueued(policy, candidate, profile, security, enabled, now)]
    {
      id := |rows|;
      var n := Notification(policy, Pending, candidate, None, None, None, 0, map[], []);
      if policy.InApp? { n := n.(status := InAppOnly); }
      if !policy.InApp? {
        var held := candidate;
        if !security { held := Q.EligibleAt(profile, candidate); }
        var mailed := security || enabled;
        var attempt := if mailed then Attempt(APending, held, None, None) else Attempt(ASkipped, held, None, Some(now));
        n := n.(attempts := n.attempts[1 := attempt]);
        if mailed && held > n.eligibleAt {
          n := n.(eligibleAt := held);
        } else if !mailed {
          n := n.(status := InAppOnly);
        }
      }
      rows := rows + [n];
    }

    // mark_notification_status; a killed worker stops between the two writes.
    method MarkStatus(id: nat, status: Status, now: int, killed: bool)
      requires id < |rows|
      modifies this
      ensures rows == old(rows)[id := if killed then RowMarked(old(rows)[id], status, now) else Marked(old(rows)[id], status, now)]
    {
      var n := rows[id].(status := status);
      if status.Queued? {
        n := n.(queuedAt := Some(now));
      } else if status.Sent? {
        n := n.(sentAt := Some(now));
      }
      rows := rows[id := n];
      if killed { return; }
      var number := n.retryCount + 1;
      if number in n.attempts {
        var attempt := n.attempts[number];
        attempt := attempt.(state := AttemptStateFor(status, attempt.state));
        if status.Sent? || status.Skipped? { attempt := attempt.(completedAt := Some(now)); }
        if attempt.attemptedAt.None? { attempt := attempt.(attemptedAt := Some(now)); }
        rows := rows[id := n.(attempts := n.attempts[number := attempt])];
      }
    }

    // mark_notification_attempt_failed; a killed worker stops between the two writes.
    method MarkAttemptFailed(id: nat, retryNeeded: bool, now: int, killed: bool)
      requires id < |rows|
      modifies this
      ensures rows == old(rows)[id := if killed then RowFailed(old(rows)[id], retryNeeded, now)
                                     else MarkedFailed(old(rows)[id], retryNeeded, now)]
    {
      var n := rows[id];
      n := n.(status := if retryNeeded then RetryNeeded else Failed, lastAttemptAt := Some(now));
      n := n.(retryCount := n.retryCount + 1, eligibleAt := now + RETRY_DELAY);
      rows := rows[id := n];
      if killed { return; }
      var attempt := Attempt(APending, now, None, None);
      if n.retryCount in n.attempts { attempt := n.attempts[n.retryCount]; }
      attempt := attempt.(state := AFailed, attemptedAt := Some(now), completedAt := Some(now));
      rows := rows[id := n.(attempts := n.attempts[n.retryCount := attempt])];
    }

    // The job's query: newest first, cut at the limit.
    method SelectDue(now: int, limit: nat) returns (ids: seq<nat>)
      ensures ids == Selected(rows, now, limit, |rows|)
    {
      ids := [];
      var k := |rows|;
      while k > 0 && |ids| < limit
        invariant 0 <= k <= |rows| && |ids| <= limit
        invariant ids + Selected(rows, now, limit - |ids|, k) == Selected(rows, now, limit, |rows|)
      {
        k := k - 1;
        if Due(rows[k], now) {
          ghost var later := Selected(rows, now, limit - |ids| - 1, k);
          assert ids + ([k as nat] + later) == ids + [k] + later;
          ids := ids + [k];
        }
      }
      assert ids + [] == ids;
    }

    // Mark the row, hand the message over and record what became of it.
    method Handle(id: nat, f: Fate, retryNeeded: bool)
      requires id < |rows|
      modifies this
      ensures rows == old(rows)[id := Handled(old(rows)[id], f, retryNeeded)]
    {
      if f.outcome == Killed(Created) { return; }
      MarkStatus(id, Queued, f.startedAt, f.outcome == Killed(RowQueued));
      if !Asked(f.outcome) { return; }
      rows := rows[id := Posted(rows[id], f)];
      if Accepted(f.outcome) {
        MarkStatus(id, Sent, f.doneAt, f.outcome.Killed?);
      } else if TurnedAway(f.outcome) {
        MarkAttemptFailed(id, retryNeeded, f.doneAt, f.outcome.Killed?);
      }
    }

    // The body of the job's loop for one notification.
    method DeliverOne(id: nat, f: Fate)
      requires id < |rows|
      modifies this
      ensures rows == old(rows)[id := Delivered(old(rows)[id], f)]
    {
      if !f.deliverable {
        MarkStatus(id, Skipped, f.startedAt, f.outcome.Killed?);
        return;
      }
      var number := rows[id].retryCount + 1;
      if number !in rows[id].attempts {
        rows := rows[id := rows[id].(attempts := rows[id].attempts[number := Attempt(APending, rows[id].eligibleAt, None, None)])];
      }
      Handle(id, f, rows[id].retryCount < 4);
    }

    // Verification and security mail, sent while it is created.
    method SendAtOnce(id: nat, f: Fate)
      requires id < |rows|
      modifies this
      ensures rows == old(rows)[id := SentAtOnce(old(rows)[id], f)]
    {
      Handle(id, f, true);
    }

    // deliver_due_notifications
    method DeliverDue(now: int, limit: nat, fates: seq<Fate>) returns (delivered: nat)
      modifies this
      ensures rows == Sweep(old(rows), now, limit, fates)
      ensures delivered == TakenBy(Selected(old(rows), now, limit, |old(rows)|), fates)
    {
      var ids := SelectDue(now, limit);
      SelectedAreDue(rows, now, limit, |rows|);
      ghost var size := |rows|;
      delivered := 0;
      var i := 0;
      while i < |ids| && i < |fates|
        invariant 0 <= i <= |ids| && i <= |fates| && |rows| == size
        invariant DeliveredAll(rows, ids[i..], fates[i..]) == Sweep(old(rows), now, limit, fates)
        invariant delivered + TakenBy(ids[i..], fates[i..]) == TakenBy(ids, fates)
      {
        assert ids[i..][1..] == ids[i + 1..] && fates[i..][1..] == fates[i + 1..];
        DeliverOne(ids[i], fates[i]);
        if fates[i].outcome.Killed? { return; }
        if fates[i].deliverable && fates[i].outcome.Taken? { delivered := delivered + 1; }
        i := i + 1;
      }
    }
  }
}
