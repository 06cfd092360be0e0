// What enqueuing and one delivery write, and which rows a sweep delivers
// (backend/apps/notifications/tasks.py, lines 129-191, and services.py, lines 27-211).
module DeliveryEffects {
  import opened Results
  import opened Delivery
  import opened DeliveryRuns

  // ---- Enqueuing ------------------------------------------------------------------------

  predicate Untried(n: Notification) {
    n.queuedAt == None && n.sentAt == None && n.lastAttemptAt == None && n.retryCount == 0 && n.tries == []
  }

  // Mail is pending with one attempt, held back to the first unquiet instant unless it is for security;
  // switched-off mail is skipped at once; an in-app notification has no attempt.
  lemma EnqueuedReads(policy: Policy, candidate: int, profile: Q.Profile, security: bool, enabled: bool, now: int)
    ensures var n := Enqueued(policy, candidate, profile, security, enabled, now);
      var start := if security then candidate else Q.EligibleAt(profile, candidate);
      && n.policy == policy && Untried(n)
      && (policy == InApp ==> n.status == InAppOnly && n.attempts == map[] && n.eligibleAt == candidate)
      && (policy != InApp && (security || enabled) ==>
           n.status == Pending && n.eligibleAt == start && n.attempts == map[1 := Attempt(APending, start, None, None)])
      && (policy != InApp && !security && !enabled ==>
           n.status == InAppOnly && n.eligibleAt == candidate && n.attempts == map[1 := Attempt(ASkipped, start, None, Some(now))])
  {
    Q.FirstUnquietInstant(profile, candidate);
  }

  lemma InsertedReads(policy: Policy, eligibleAt: int)
    ensures var n := Inserted(policy, eligibleAt);
      && n.policy == policy && Untried(n) && n.eligibleAt == eligibleAt && n.attempts == map[]
      && n.status == if policy == InApp then InAppOnly else Pending
  {
  }

  // Creating a notification adds one row and leaves the others alone.
  lemma CreationAppends(ns: seq<Notification>, op: Op)
    requires !op.SweepOp?
    ensures |Step(ns, op)| == |ns| + 1 && Step(ns, op)[..|ns|] == ns
    ensures op.EnqueueOp? ==>
      Step(ns, op)[|ns|] == Enqueued(op.policy, op.candidate, op.profile, op.security, op.enabled, op.now)
    ensures op.InsertOp? ==> Step(ns, op)[|ns|] == Inserted(op.policy, op.eligibleAt)
    ensures op.SendAtOnceOp? ==>
      Step(ns, op)[|ns|] == SentAtOnce(Enqueued(EmailOnly, op.candidate, op.profile, true, true, op.candidate), op.fate)
  {
  }

  // ---- One delivery ---------------------------------------------------------------------

  // The attempt being made, as it is stored or would be created.
  function Current(n: Notification): Attempt {
    if n.retryCount + 1 in n.attempts then n.attempts[n.retryCount + 1] else Attempt(APending, n.eligibleAt, None, None)
  }

  function OrElse(x: Option<int>, y: int): int {
    if x.Some? then x.value else y
  }

  // Nothing but the row's own bookkeeping and the current attempt changes.
  predicate SameBut(n: Notification, after: Notification, current: Attempt) {
    && after.policy == n.policy
    && after.attempts == n.attempts[n.retryCount + 1 := current]
  }

  // Mail taken: SENT now, and so is its attempt.
  lemma TakenIsRecorded(n: Notification, f: Fate)
    requires f.deliverable && f.outcome == Taken
    ensures var after := Delivered(n, f);
      && after.status == Sent && after.sentAt == Some(f.doneAt) && after.queuedAt == Some(f.startedAt)
      && after.retryCount == n.retryCount && after.eligibleAt == n.eligibleAt && after.lastAttemptAt == n.lastAttemptAt
      && after.tries == n.tries + [Try(f.startedAt, Taken, f.doneAt)]
      && SameBut(n, after, Attempt(ASent, Current(n).eligibleAt, Some(OrElse(Current(n).attemptedAt, f.startedAt)), Some(f.doneAt)))
  {
  }

  // Mail refused: counted, due again in five minutes, failed for good at the fifth refusal; its attempt
  // has failed.
  lemma RefusedIsRecorded(n: Notification, f: Fate)
    requires f.deliverable && f.outcome == Refused
    ensures var after := Delivered(n, f);
      && after.status == (if n.retryCount < 4 then RetryNeeded else Failed) && after.retryCount == n.retryCount + 1
      && after.eligibleAt == f.doneAt + 300_000_000 && after.lastAttemptAt == Some(f.doneAt)
      && after.queuedAt == Some(f.startedAt) && after.sentAt == n.sentAt
      && after.tries == n.tries + [Try(f.startedAt, Refused, f.doneAt)]
      && SameBut(n, after, Attempt(AFailed, Current(n).eligibleAt, Some(f.doneAt), Some(f.doneAt)))
  {
  }

  // Mail that is not to be sent any more: skipped, and so is its attempt if it has one and the worker
  // does not die before it.
  lemma SkippedIsRecorded(n: Notification, f: Fate)
    requires !f.deliverable
    ensures var after := Delivered(n, f);
      && after == n.(status := Skipped, attempts := after.attempts)
      && after.attempts == if f.outcome.Killed? || n.retryCount + 1 !in n.attempts then n.attempts
           else n.attempts[n.retryCount + 1 :=
             Attempt(ASkipped, Current(n).eligibleAt, Some(OrElse(Current(n).attemptedAt, f.startedAt)), Some(f.startedAt))]
  {
  }

  // A worker that dies leaves the writes it made. Before the mail server is asked there is nothing to
  // tell it by; after, the row says SENT or counts the refusal while its attempt still reads QUEUED.
  lemma KilledIsRecorded(n: Notification, f: Fate)
    requires f.deliverable && f.outcome.Killed?
    ensures var after, at, queued := Delivered(n, f), f.outcome.after,
        Attempt(AQueued, Current(n).eligibleAt, Some(OrElse(Current(n).attemptedAt, f.startedAt)), Current(n).completedAt);
      && SameBut(n, after, if at == Created || at == RowQueued then Current(n) else queued)
      && (at == Created ==> after == n.(attempts := after.attempts))
      && (at == RowQueued || at == AttemptQueued ==>
           after == n.(attempts := after.attempts, status := Queued, queuedAt := Some(f.startedAt)))
      && (at == HandedOver ==>
           after == n.(attempts := after.attempts, status := Queued, queuedAt := Some(f.startedAt),
                       tries := n.tries + [Try(f.startedAt, f.outcome, f.doneAt)]))
      && (at == RowSent ==>
           after == n.(attempts := after.attempts, status := Sent, queuedAt := Some(f.startedAt), sentAt := Some(f.doneAt),
                       tries := n.tries + [Try(f.startedAt, f.outcome, f.doneAt)]))
      && (at == RowRefused ==>
           after == n.(attempts := after.attempts, status := if n.retryCount < 4 then RetryNeeded else Failed,
                       queuedAt := Some(f.startedAt), lastAttemptAt := Some(f.doneAt), retryCount := n.retryCount + 1,
                       eligibleAt := f.doneAt + 300_000_000, tries := n.tries + [Try(f.startedAt, f.outcome, f.doneAt)]))
  {
  }

  // Mail sent while it is created always asks for a retry when it is refused.
  lemma SentAtOnceRetries(n: Notification, f: Fate)
    requires n.retryCount + 1 in n.attempts && f.deliverable
    ensures f.outcome == Refused ==>
      SentAtOnce(n, f) == Delivered(n, f).(status := RetryNeeded)
    ensures f.outcome != Refused && f.outcome != Killed(RowRefused) ==> SentAtOnce(n, f) == Delivered(n, f)
  {
  }

  // ---- Which rows a sweep delivers ------------------------------------------------------

  // Mail that waits and whose time has come.
  predicate WaitsFor(n: Notification, now: int) {
    (n.status == Pending || n.status == RetryNeeded) && n.policy != InApp && n.eligibleAt <= now
  }

  function Newer(ns: seq<Notification>, now: int, id: nat, k: nat): set<nat>
    requires k <= |ns|
  {
    set j: nat | id < j < k && WaitsFor(ns[j], now)
  }

  lemma {:induction false} SelectedIff(ns: seq<Notification>, now: int, limit: nat, k: nat, id: nat)
    requires id < k <= |ns|
    ensures id in Selected(ns, now, limit, k) <==> WaitsFor(ns[id], now) && |Newer(ns, now, id, k)| < limit
  {
    if limit == 0 {
    } else if id == k - 1 {
      assert Newer(ns, now, id, k) == {};
      if !Due(ns[id], now) {
        SelectedAreDue(ns, now, limit, k - 1);
      }
    } else if Due(ns[k - 1], now) {
      SelectedIff(ns, now, limit - 1, k - 1, id);
      assert Newer(ns, now, id, k) == Newer(ns, now, id, k - 1) + {k - 1};
    } else {
      SelectedIff(ns, now, limit, k - 1, id);
      assert Newer(ns, now, id, k) == Newer(ns, now, id, k - 1);
    }
  }

  // A sweep in which no worker dies delivers a row, with a fate of its own, exactly when it waits for the
  // sweep's time and fewer newer ones do than the limit allows. Every other row stays as it is.
  lemma SweepDelivers(ns: seq<Notification>, now: int, limit: nat, fates: seq<Fate>, id: nat)
    requires id < |ns| && limit <= |fates| && forall i :: 0 <= i < |fates| ==> !fates[i].outcome.Killed?
    ensures |Sweep(ns, now, limit, fates)| == |ns|
    ensures WaitsFor(ns[id], now) && |Newer(ns, now, id, |ns|)| < limit ==>
      exists j :: 0 <= j < |fates| && Sweep(ns, now, limit, fates)[id] == Delivered(ns[id], fates[j])
    ensures !(WaitsFor(ns[id], now) && |Newer(ns, now, id, |ns|)| < limit) ==> Sweep(ns, now, limit, fates)[id] == ns[id]
  {
    var ids := Selected(ns, now, limit, |ns|);
    SelectedAreDue(ns, now, limit, |ns|);
    SelectedDescending(ns, now, limit, |ns|);
    SelectedIff(ns, now, limit, |ns|, id);
    OthersUntouched(ns, ids, fates);
    if id in ids {
      var j: nat :| j < |ids| && ids[j] == id;
      DeliveredAt(ns, ids, fates, j);
      assert Reached(fates, j);
    }
  }
}
