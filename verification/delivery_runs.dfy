// What every sequential run of deliveries keeps.
module DeliveryRuns {
  import opened Results
  import opened Delivery
  import opened Sequences

  // What the attempt of a counted refusal reads.
  function CountedState(o: Outcome): AttemptState {
    if o.Refused? then AFailed else AQueued
  }

  // The retry counter counts refusals, and attempt numbers are 1..m with m the counter or one more.
  // An attempt below the counter is FAILED, or still QUEUED when the worker was killed between
  // counting the refusal on the row and recording it on the attempt.
  ghost predicate AttemptsTrack(n: Notification) {
    && n.retryCount <= |n.tries|
    && (forall k :: k in n.attempts ==> 1 <= k <= n.retryCount + 1)
    && (forall k :: 1 <= k <= n.retryCount ==>
         k in n.attempts && n.attempts[k].state == CountedState(n.tries[k - 1].outcome))
  }

  // The mail server refused the first retryCount tries; each later try came five minutes or
  // more after the refusal before it.
  ghost predicate TriesTrack(n: Notification) {
    && n.retryCount <= |n.tries| <= n.retryCount + 1
    && (forall k :: 0 <= k < n.retryCount ==> TurnedAway(n.tries[k].outcome))
    && (forall k :: 0 <= k < |n.tries| - 1 ==> n.tries[k].doneAt + RETRY_DELAY <= n.tries[k + 1].at)
    && n.lastAttemptAt == (if n.retryCount == 0 then None else Some(n.tries[n.retryCount - 1].doneAt))
  }

  // How the status follows from the tries. `next` is the attempt being worked on.
  ghost predicate StatusTracks(n: Notification) {
    var next := n.retryCount + 1;
    match n.status
    case Pending => n.retryCount == |n.tries| == 0 && (next in n.attempts ==> n.attempts[next].state.APending?)
    case InAppOnly => n.retryCount == |n.tries| == 0
    case RetryNeeded =>
      && 1 <= n.retryCount == |n.tries| <= 4 && (next in n.attempts ==> n.attempts[next].state.APending?)
      && n.eligibleAt == n.tries[n.retryCount - 1].doneAt + RETRY_DELAY
    case Failed => n.retryCount == |n.tries| == 5 && next !in n.attempts
    case Skipped =>
      && n.retryCount == |n.tries| <= 4
      && (next in n.attempts ==> n.attempts[next].state.ASkipped? || n.attempts[next].state.APending?)
    case Queued =>
      && n.retryCount <= 4 && next in n.attempts
      && (n.attempts[next].state.AQueued? || (n.attempts[next].state.APending? && |n.tries| == n.retryCount))
      && (|n.tries| == next ==> n.tries[n.retryCount].outcome == Killed(HandedOver))
    case Sent =>
      && |n.tries| == next <= 5 && Accepted(n.tries[n.retryCount].outcome) && next in n.attempts
      && n.attempts[next].state == (if n.tries[n.retryCount].outcome.Taken? then ASent else AQueued)
      && n.sentAt == Some(n.tries[n.retryCount].doneAt)
  }

  ghost predicate Sound(n: Notification) {
    AttemptsTrack(n) && TriesTrack(n) && StatusTracks(n)
  }

  ghost predicate AllSound(ns: seq<Notification>) {
    forall i :: 0 <= i < |ns| ==> Sound(ns[i])
  }

  lemma EnqueuedIsSound(policy: Policy, candidate: int, profile: Q.Profile, security: bool, enabled: bool, now: int)
    ensures Sound(Enqueued(policy, candidate, profile, security, enabled, now))
  {
  }

  lemma SentAtOnceIsSound(candidate: int, profile: Q.Profile, f: Fate)
    requires Ticks(f, candidate)
    ensures Sound(SentAtOnce(Enqueued(EmailOnly, candidate, profile, true, true, candidate), f))
  {
    var n := Enqueued(EmailOnly, candidate, profile, true, true, candidate);
    assert Ready(n, f.startedAt);
    HandledIsSound(n, f, true);
  }

  // A notification that is about to be marked, with its attempt.
  ghost predicate Ready(n: Notification, at: int) {
    && Sound(n) && (n.status.Pending? || n.status.RetryNeeded?) && n.retryCount + 1 in n.attempts
    && (n.status.RetryNeeded? ==> n.eligibleAt <= at)
  }

  lemma WithAttemptIsReady(n: Notification, now: int, at: int)
    requires Sound(n) && Due(n, now) && now <= at
    ensures Ready(WithAttempt(n), at) && WithAttempt(n).retryCount == n.retryCount && WithAttempt(n).tries == n.tries
  {
  }

  // Handing a ready notification to the mail server.
  lemma PostedIsInFlight(n: Notification, f: Fate)
    requires Ready(n, f.startedAt)
    ensures InFlight(Posted(Marked(n, Queued, f.startedAt), f), f)
    ensures Posted(Marked(n, Queued, f.startedAt), f).retryCount == n.retryCount == |n.tries|
  {
  }

  // What a notification looks like while the mail server has it.
  ghost predicate InFlight(p: Notification, f: Fate) {
    && AttemptsTrack(p) && TriesTrack(p) && p.retryCount <= 4 && |p.tries| == p.retryCount + 1
    && p.tries[p.retryCount] == Try(f.startedAt, f.outcome, f.doneAt)
    && p.retryCount + 1 in p.attempts && p.attempts[p.retryCount + 1].state.AQueued? && p.status.Queued?
  }

  lemma SkippedIsSound(n: Notification, now: int)
    requires Sound(n) && (n.status.Pending? || n.status.RetryNeeded?)
    ensures Sound(Marked(n, Skipped, now)) && Sound(RowMarked(n, Skipped, now))
  {
  }

  lemma AcceptedIsSound(p: Notification, f: Fate)
    requires InFlight(p, f)
    ensures f.outcome.Taken? ==> Sound(Marked(p, Sent, f.doneAt))
    ensures f.outcome == Killed(RowSent) ==> Sound(RowMarked(p, Sent, f.doneAt))
  {
  }

  lemma RefusedIsSound(p: Notification, f: Fate, retryNeeded: bool)
    requires InFlight(p, f) && (retryNeeded <==> p.retryCount < 4) && f.outcome.Refused?
    ensures Sound(MarkedFailed(p, retryNeeded, f.doneAt))
  {
    var failed := MarkedFailed(p, retryNeeded, f.doneAt);
    assert AttemptsTrack(failed) && TriesTrack(failed);
  }

  // The row counts the refusal, and the worker is killed before the attempt follows.
  lemma HalfRefusedIsSound(p: Notification, f: Fate, retryNeeded: bool)
    requires InFlight(p, f) && (retryNeeded <==> p.retryCount < 4) && f.outcome == Killed(RowRefused)
    ensures Sound(RowFailed(p, retryNeeded, f.doneAt))
  {
    var failed := RowFailed(p, retryNeeded, f.doneAt);
    assert AttemptsTrack(failed) && TriesTrack(failed);
  }

  lemma StrandedIsSound(n: Notification, at: int)
    requires Ready(n, at)
    ensures Sound(RowMarked(n, Queued, at)) && Sound(Marked(n, Queued, at))
  {
  }

  lemma RecordedIsSound(p: Notification, f: Fate, retryNeeded: bool)
    requires InFlight(p, f) && (retryNeeded <==> p.retryCount < 4) && Asked(f.outcome)
    ensures Sound(Recorded(p, f, retryNeeded))
  {
    if Accepted(f.outcome) {
      AcceptedIsSound(p, f);
    } else if f.outcome.Refused? {
      RefusedIsSound(p, f, retryNeeded);
    } else if f.outcome == Killed(RowRefused) {
      HalfRefusedIsSound(p, f, retryNeeded);
    }
  }

  lemma HandledIsSound(n: Notification, f: Fate, retryNeeded: bool)
    requires Ready(n, f.startedAt) && (retryNeeded <==> n.retryCount < 4)
    ensures Sound(Handled(n, f, retryNeeded))
  {
    if Asked(f.outcome) {
      PostedIsInFlight(n, f);
      RecordedIsSound(Posted(Marked(n, Queued, f.startedAt), f), f, retryNeeded);
    } else {
      StrandedIsSound(n, f.startedAt);
    }
  }

  lemma DeliveredIsSound(n: Notification, f: Fate, now: int)
    requires Sound(n) && Due(n, now) && Ticks(f, now)
    ensures Sound(Delivered(n, f))
  {
    if f.deliverable {
      WithAttemptIsReady(n, now, f.startedAt);
      HandledIsSound(WithAttempt(n), f, n.retryCount < 4);
    } else {
      SkippedIsSound(n, f.startedAt);
    }
  }

  predicate Descending(ids: seq<nat>) {
    forall i, j :: 0 <= i < j < |ids| ==> ids[i] > ids[j]
  }

  // Each notification at most once, newest first.
  lemma {:induction false} SelectedDescending(ns: seq<Notification>, now: int, limit: nat, k: nat)
    requires k <= |ns|
    ensures Descending(Selected(ns, now, limit, k))
  {
    if k > 0 && limit > 0 {
      if Due(ns[k - 1], now) {
        SelectedDescending(ns, now, limit - 1, k - 1);
        SelectedAreDue(ns, now, limit - 1, k - 1);
      } else {
        SelectedDescending(ns, now, limit, k - 1);
      }
    }
  }

  // A due notification is left out only when the limit is used up by newer ones.
  lemma {:induction false} SelectedNewest(ns: seq<Notification>, now: int, limit: nat, k: nat, id: nat)
    requires id < k <= |ns| && Due(ns[id], now)
    ensures var selected := Selected(ns, now, limit, k);
      id in selected || (|selected| == limit && forall other :: other in selected ==> other > id)
  {
    if limit > 0 && id < k - 1 {
      if Due(ns[k - 1], now) {
        SelectedNewest(ns, now, limit - 1, k - 1, id);
      } else {
        SelectedNewest(ns, now, limit, k - 1, id);
      }
    }
  }

  // A sweep reaches only the notifications it selected.
  lemma {:induction false} OthersUntouched(ns: seq<Notification>, ids: seq<nat>, fates: seq<Fate>)
    requires forall i :: 0 <= i < |ids| ==> ids[i] < |ns|
    ensures |DeliveredAll(ns, ids, fates)| == |ns|
    ensures forall id: nat :: id < |ns| && id !in ids ==> DeliveredAll(ns, ids, fates)[id] == ns[id]
    decreases |ids|
  {
    if ids != [] && fates != [] {
      var after, rest := ns[ids[0] := Delivered(ns[ids[0]], fates[0])], ids[1..];
      assert forall id :: id in rest ==> id in ids;
      OthersUntouched(after, rest, fates[1..]);
    }
  }

  lemma {:induction false} DeliveredAllIsSound(ns: seq<Notification>, ids: seq<nat>, fates: seq<Fate>, now: int)
    requires AllSound(ns) && AllDue(ns, ids, now, |ns|) && NoRepeats(ids)
    requires forall i :: 0 <= i < |fates| ==> Ticks(fates[i], now)
    ensures AllSound(DeliveredAll(ns, ids, fates))
    decreases |ids|
  {
    if ids != [] && fates != [] {
      DeliveredIsSound(ns[ids[0]], fates[0], now);
      var after, rest := ns[ids[0] := Delivered(ns[ids[0]], fates[0])], ids[1..];
      assert AllDue(after, rest, now, |after|);
      DeliveredAllIsSound(after, rest, fates[1..], now);
    }
  }

  lemma SweepIsSound(ns: seq<Notification>, now: int, limit: nat, fates: seq<Fate>)
    requires AllSound(ns) && Timely(SweepOp(now, limit, fates))
    ensures AllSound(Sweep(ns, now, limit, fates)) && |Sweep(ns, now, limit, fates)| == |ns|
    ensures forall id: nat :: id < |ns| && !Due(ns[id], now) ==> Sweep(ns, now, limit, fates)[id] == ns[id]
  {
    SelectedAreDue(ns, now, limit, |ns|);
    SelectedDescending(ns, now, limit, |ns|);
    OthersUntouched(ns, Selected(ns, now, limit, |ns|), fates);
    DeliveredAllIsSound(ns, Selected(ns, now, limit, |ns|), fates, now);
  }

  lemma StepIsSound(ns: seq<Notification>, op: Op)
    requires AllSound(ns) && Timely(op)
    ensures AllSound(Step(ns, op)) && |ns| <= |Step(ns, op)|
    ensures forall id: nat :: id < |ns| && !(op.SweepOp? && Due(ns[id], op.now)) ==> Step(ns, op)[id] == ns[id]
  {
    match op
    case EnqueueOp(policy, candidate, profile, security, enabled, now) =>
      EnqueuedIsSound(policy, candidate, profile, security, enabled, now);
    case InsertOp(policy, eligibleAt) => assert Sound(Inserted(policy, eligibleAt));
    case SendAtOnceOp(candidate, profile, f) => SentAtOnceIsSound(candidate, profile, f);
    case SweepOp(now, limit, fates) => SweepIsSound(ns, now, limit, fates);
  }

  predicate AllTimely(ops: seq<Op>) {
    forall i :: 0 <= i < |ops| ==> Timely(ops[i])
  }

  // Every reachable outbox is sound.
  lemma {:induction false} RunsAreSound(ns: seq<Notification>, ops: seq<Op>)
    requires AllSound(ns) && AllTimely(ops)
    ensures AllSound(Run(ns, ops)) && |ns| <= |Run(ns, ops)|
  {
    if ops != [] {
      RunsAreSound(ns, ops[..|ops| - 1]);
      StepIsSound(Run(ns, ops[..|ops| - 1]), ops[|ops| - 1]);
    }
  }

  // The attempt made last, or about to be made.
  function Latest(n: Notification): nat {
    if n.retryCount + 1 in n.attempts then n.retryCount + 1 else n.retryCount
  }

  // Attempt numbers are 1..m with m the retry counter or one more. Of the counted ones those read
  // FAILED whose refusal was recorded to the end, and the others read QUEUED.
  lemma AttemptsAreContiguous(ops: seq<Op>, id: nat)
    requires AllTimely(ops) && id < |Run([], ops)|
    ensures var n := Run([], ops)[id];
      && (forall k :: k in n.attempts <==> 1 <= k <= Latest(n))
      && n.retryCount <= |n.tries|
      && (forall k :: 1 <= k <= n.retryCount ==>
           && (n.tries[k - 1].outcome.Refused? || n.tries[k - 1].outcome == Killed(RowRefused))
           && n.attempts[k].state == if n.tries[k - 1].outcome.Refused? then AFailed else AQueued)
  {
    RunsAreSound([], ops);
  }

  // One step leaves a notification alone or delivers it once.
  lemma StepDelivers(ns: seq<Notification>, op: Op, id: nat)
    requires AllSound(ns) && Timely(op) && id < |ns|
    ensures |ns| <= |Step(ns, op)|
    ensures Step(ns, op)[id] == ns[id] ||
      exists f, now :: Due(ns[id], now) && Ticks(f, now) && Step(ns, op)[id] == Delivered(ns[id], f)
  {
    StepIsSound(ns, op);
    if op.SweepOp? {
      var ids := Selected(ns, op.now, op.limit, |ns|);
      SelectedAreDue(ns, op.now, op.limit, |ns|);
      SelectedDescending(ns, op.now, op.limit, |ns|);
      OthersUntouched(ns, ids, op.fates);
      if id in ids {
        var j: nat :| j < |ids| && ids[j] == id;
        DeliveredAt(ns, ids, op.fates, j);
        if Reached(op.fates, j) {
          assert Due(ns[id], op.now) && Ticks(op.fates[j], op.now);
        }
      }
    }
  }

  // The later notification counts at least as many refusals, and its counted attempts are the same.
  ghost predicate KeepsCounted(n: Notification, after: Notification) {
    && n.retryCount <= after.retryCount
    && forall k :: 1 <= k <= n.retryCount && k in n.attempts ==> k in after.attempts && after.attempts[k] == n.attempts[k]
  }

  lemma RecordedKeepsCounted(p: Notification, f: Fate, retryNeeded: bool)
    ensures KeepsCounted(p, Recorded(p, f, retryNeeded))
  {
  }

  lemma HandledKeepsCounted(n: Notification, f: Fate, retryNeeded: bool)
    ensures KeepsCounted(n, Handled(n, f, retryNeeded))
  {
    var posted := Posted(Marked(n, Queued, f.startedAt), f);
    assert KeepsCounted(n, posted) && posted.retryCount == n.retryCount;
    RecordedKeepsCounted(posted, f, retryNeeded);
  }

  lemma DeliveredKeepsCounted(n: Notification, f: Fate)
    ensures KeepsCounted(n, Delivered(n, f))
  {
    HandledKeepsCounted(WithAttempt(n), f, n.retryCount < 4);
  }

  // Whatever runs later, the attempt of a counted refusal is never written again; so one left QUEUED
  // stays QUEUED.
  lemma {:induction false} CountedForGood(ns: seq<Notification>, ops: seq<Op>, id: nat, k: nat)
    requires AllSound(ns) && AllTimely(ops) && id < |ns| && 1 <= k <= ns[id].retryCount
    ensures |ns| <= |Run(ns, ops)|
    ensures var n := Run(ns, ops)[id];
      k <= n.retryCount && k in n.attempts && k in ns[id].attempts && n.attempts[k] == ns[id].attempts[k]
  {
    if ops != [] {
      var before, op := Run(ns, ops[..|ops| - 1]), ops[|ops| - 1];
      CountedForGood(ns, ops[..|ops| - 1], id, k);
      RunsAreSound(ns, ops[..|ops| - 1]);
      StepDelivers(before, op, id);
      if f, now :| Due(before[id], now) && Ticks(f, now) && Step(before, op)[id] == Delivered(before[id], f) {
        DeliveredKeepsCounted(before[id], f);
      }
    } else {
      assert Sound(ns[id]);
    }
  }


  // The mail server is asked at most five times; the notification reads SENT exactly when the
  // last time was taken, and FAILED exactly when five were refused.
  lemma AtMostFiveTries(ops: seq<Op>, id: nat)
    requires AllTimely(ops) && id < |Run([], ops)|
    ensures var n := Run([], ops)[id];
      && |n.tries| <= 5
      && (n.status.Sent? <==> |n.tries| > 0 && Accepted(n.tries[|n.tries| - 1].outcome))
      && (n.status.Failed? <==> |n.tries| == 5 && TurnedAway(n.tries[4].outcome))
      && (forall k :: 0 <= k < |n.tries| - 1 ==>
           TurnedAway(n.tries[k].outcome) && n.tries[k].doneAt + RETRY_DELAY <= n.tries[k + 1].at)
  {
    RunsAreSound([], ops);
  }

  predicate Settled(n: Notification) {
    n.status.Sent? || n.status.Skipped? || n.status.Failed? || n.status.InAppOnly? || n.status.Queued?
  }

  // Whatever runs later, a settled notification is not touched again.
  lemma {:induction false} SettledForGood(ns: seq<Notification>, ops: seq<Op>, id: nat)
    requires AllSound(ns) && AllTimely(ops) && id < |ns| && Settled(ns[id])
    ensures |ns| <= |Run(ns, ops)| && Run(ns, ops)[id] == ns[id]
  {
    if ops != [] {
      SettledForGood(ns, ops[..|ops| - 1], id);
      RunsAreSound(ns, ops[..|ops| - 1]);
      StepIsSound(Run(ns, ops[..|ops| - 1]), ops[|ops| - 1]);
    }
  }

  // ---- Quiet hours ----------------------------------------------------------------------

  // Nothing was or will be sent before `start`.
  ghost predicate Waits(n: Notification, start: int) {
    start <= n.eligibleAt && forall k :: 0 <= k < |n.tries| ==> start <= n.tries[k].at
  }

  // The delivery reaches the mail server.
  predicate Hands(f: Fate) { f.deliverable && Asked(f.outcome) }

  lemma HandledTries(n: Notification, f: Fate, retryNeeded: bool)
    ensures Handled(n, f, retryNeeded).tries == n.tries + if Asked(f.outcome) then [Try(f.startedAt, f.outcome, f.doneAt)] else []
  {
  }

  lemma HandledEligible(n: Notification, f: Fate, retryNeeded: bool)
    ensures Handled(n, f, retryNeeded).eligibleAt == if TurnedAway(f.outcome) then f.doneAt + RETRY_DELAY else n.eligibleAt
  {
  }

  // What one delivery adds to the tries, and when the notification is eligible afterwards.
  lemma DeliveredTries(n: Notification, f: Fate)
    ensures Delivered(n, f).tries == n.tries + if Hands(f) then [Try(f.startedAt, f.outcome, f.doneAt)] else []
    ensures Delivered(n, f).eligibleAt == if f.deliverable && TurnedAway(f.outcome) then f.doneAt + RETRY_DELAY else n.eligibleAt
  {
    HandledTries(WithAttempt(n), f, n.retryCount < 4);
    HandledEligible(WithAttempt(n), f, n.retryCount < 4);
  }

  lemma DeliveredWaits(n: Notification, f: Fate, now: int, start: int)
    requires Sound(n) && Due(n, now) && Ticks(f, now) && Waits(n, start)
    ensures Waits(Delivered(n, f), start)
  {
    DeliveredTries(n, f);
  }

  lemma {:induction false} DeliveredAllWaits(ns: seq<Notification>, ids: seq<nat>, fates: seq<Fate>, now: int, id: nat, start: int)
    requires AllSound(ns) && AllDue(ns, ids, now, |ns|) && NoRepeats(ids) && id < |ns| && Waits(ns[id], start)
    requires forall i :: 0 <= i < |fates| ==> Ticks(fates[i], now)
    ensures |DeliveredAll(ns, ids, fates)| == |ns| && Waits(DeliveredAll(ns, ids, fates)[id], start)
    decreases |ids|
  {
    if ids != [] && fates != [] {
      DeliveredIsSound(ns[ids[0]], fates[0], now);
      if ids[0] == id {
        DeliveredWaits(ns[id], fates[0], now, start);
      }
      var after, rest := ns[ids[0] := Delivered(ns[ids[0]], fates[0])], ids[1..];
      assert AllDue(after, rest, now, |after|);
      DeliveredAllWaits(after, rest, fates[1..], now, id, start);
    }
  }

  lemma {:induction false} RunsWait(ns: seq<Notification>, ops: seq<Op>, id: nat, start: int)
    requires AllSound(ns) && AllTimely(ops) && id < |ns| && Waits(ns[id], start)
    ensures |ns| <= |Run(ns, ops)| && Waits(Run(ns, ops)[id], start)
  {
    if ops != [] {
      var before, op := Run(ns, ops[..|ops| - 1]), ops[|ops| - 1];
      RunsWait(ns, ops[..|ops| - 1], id, start);
      RunsAreSound(ns, ops[..|ops| - 1]);
      StepIsSound(before, op);
      if op.SweepOp? {
        SelectedAreDue(before, op.now, op.limit, |before|);
        SelectedDescending(before, op.now, op.limit, |before|);
        DeliveredAllWaits(before, Selected(before, op.now, op.limit, |before|), op.fates, op.now, id, start);
      }
    }
  }

  // However sweeps run, mail that can wait never leaves before the recipient's first instant
  // outside quiet hours, counted from when the notification became eligible.
  lemma MailWaitsOutQuietHours(ns: seq<Notification>, enqueue: Op, ops: seq<Op>, k: nat)
    requires AllSound(ns) && AllTimely(ops) && enqueue.EnqueueOp? && !enqueue.security
    ensures |ns| < |Run(Step(ns, enqueue), ops)|
    ensures k < |Run(Step(ns, enqueue), ops)[|ns|].tries| ==>
      var sent := Run(Step(ns, enqueue), ops)[|ns|].tries[k].at;
      && sent >= Q.EligibleAt(enqueue.profile, enqueue.candidate)
      && exists t :: enqueue.candidate <= t <= sent && !Q.Quiet(enqueue.profile, t)
  {
    var start := Q.EligibleAt(enqueue.profile, enqueue.candidate);
    Q.FirstUnquietInstant(enqueue.profile, enqueue.candidate);
    StepIsSound(ns, enqueue);
    assert !enqueue.policy.InApp? && enqueue.enabled ==> Waits(Step(ns, enqueue)[|ns|], start);
    if !enqueue.policy.InApp? && enqueue.enabled {
      RunsWait(Step(ns, enqueue), ops, |ns|, start);
    } else {
      SettledForGood(Step(ns, enqueue), ops, |ns|);
    }
  }

  // The worker is still alive when it comes to its j-th delivery.
  predicate Reached(fates: seq<Fate>, j: nat) {
    j < |fates| && forall i :: 0 <= i < j ==> !fates[i].outcome.Killed?
  }

  lemma ReachedLater(fates: seq<Fate>, j: nat)
    requires fates != [] && j > 0
    ensures Reached(fates, j) <==> !fates[0].outcome.Killed? && Reached(fates[1..], j - 1)
  {
    var later := fates[1..];
    assert forall i :: 0 <= i < |later| ==> later[i] == fates[i + 1];
    if Reached(later, j - 1) && !fates[0].outcome.Killed? {
      forall i | 0 <= i < j ensures !fates[i].outcome.Killed? {
        if i > 0 {
          assert fates[i] == later[i - 1];
        }
      }
    }
  }

  // What the deliveries of a list do to one notification on it.
  lemma {:induction false} DeliveredAt(ns: seq<Notification>, ids: seq<nat>, fates: seq<Fate>, j: nat)
    requires NoRepeats(ids) && j < |ids| && (forall i :: 0 <= i < |ids| ==> ids[i] < |ns|)
    ensures |DeliveredAll(ns, ids, fates)| == |ns|
    ensures DeliveredAll(ns, ids, fates)[ids[j]] == if Reached(fates, j) then Delivered(ns[ids[j]], fates[j]) else ns[ids[j]]
    decreases |ids|
  {
    OthersUntouched(ns, ids, fates);
    if fates != [] {
      var after, rest, later := ns[ids[0] := Delivered(ns[ids[0]], fates[0])], ids[1..], fates[1..];
      if j == 0 {
        OthersUntouched(after, rest, later);
      } else {
        ReachedLater(fates, j);
        DeliveredAt(after, rest, later, j - 1);
      }
    }
  }

  // Sweep `op` gets as far as the mail server with notification id, as its j-th delivery: the
  // sweep selected it, was not killed in an earlier delivery, and found it deliverable.
  predicate HandsOver(ns: seq<Notification>, op: Op, id: nat, j: nat) {
    && op.SweepOp?
    && var ids := Selected(ns, op.now, op.limit, |ns|);
       j < |ids| && ids[j] == id && Reached(op.fates, j) && Hands(op.fates[j])
  }

  // A sweep that hands a notification over adds one try, dated by its clock.
  lemma HandingAddsTry(ns: seq<Notification>, op: Op, id: nat, j: nat)
    requires id < |ns| && HandsOver(ns, op, id, j)
    ensures |Step(ns, op)| == |ns|
    ensures Step(ns, op)[id].tries == ns[id].tries + [Try(op.fates[j].startedAt, op.fates[j].outcome, op.fates[j].doneAt)]
  {
    var ids := Selected(ns, op.now, op.limit, |ns|);
    SelectedAreDue(ns, op.now, op.limit, |ns|);
    SelectedDescending(ns, op.now, op.limit, |ns|);
    DeliveredAt(ns, ids, op.fates, j);
    DeliveredTries(ns[id], op.fates[j]);
  }

  // No other step adds one.
  lemma OthersAddNone(ns: seq<Notification>, op: Op, id: nat)
    requires id < |ns| && forall j: nat :: !HandsOver(ns, op, id, j)
    ensures |ns| <= |Step(ns, op)| && Step(ns, op)[id].tries == ns[id].tries
  {
    if op.SweepOp? {
      var ids := Selected(ns, op.now, op.limit, |ns|);
      SelectedAreDue(ns, op.now, op.limit, |ns|);
      SelectedDescending(ns, op.now, op.limit, |ns|);
      OthersUntouched(ns, ids, op.fates);
      if id in ids {
        var j: nat :| j < |ids| && ids[j] == id;
        DeliveredAt(ns, ids, op.fates, j);
        if Reached(op.fates, j) {
          assert !HandsOver(ns, op, id, j);
          DeliveredTries(ns[id], op.fates[j]);
        }
      }
    }
  }

  ghost predicate MailedQuietly(tries: seq<Try>, profile: Q.Profile) {
    exists k :: 0 <= k < |tries| && Q.Quiet(profile, tries[k].at)
  }

  // The sweep hands the notification over while its clock shows quiet hours.
  ghost predicate HandsOverQuietly(ns: seq<Notification>, op: Op, id: nat, profile: Q.Profile) {
    exists j: nat :: HandsOver(ns, op, id, j) && Q.Quiet(profile, op.fates[j].startedAt)
  }

  lemma OneMoreTry(tries: seq<Try>, t: Try, profile: Q.Profile)
    ensures MailedQuietly(tries + [t], profile) <==> MailedQuietly(tries, profile) || Q.Quiet(profile, t.at)
  {
    var more := tries + [t];
    assert more[|tries|] == t;
    if MailedQuietly(tries, profile) {
      var k :| 0 <= k < |tries| && Q.Quiet(profile, tries[k].at);
      assert more[k] == tries[k];
    }
  }

  lemma StepMailsQuietly(ns: seq<Notification>, op: Op, id: nat, profile: Q.Profile)
    requires id < |ns|
    ensures |ns| <= |Step(ns, op)|
    ensures MailedQuietly(Step(ns, op)[id].tries, profile) <==>
      MailedQuietly(ns[id].tries, profile) || HandsOverQuietly(ns, op, id, profile)
  {
    if j: nat :| HandsOver(ns, op, id, j) {
      HandingAddsTry(ns, op, id, j);
      OneMoreTry(ns[id].tries, Try(op.fates[j].startedAt, op.fates[j].outcome, op.fates[j].doneAt), profile);
      SelectedDescending(ns, op.now, op.limit, |ns|);
      assert forall i: nat :: HandsOver(ns, op, id, i) ==> i == j;
    } else {
      OthersAddNone(ns, op, id);
    }
  }

  // The same for step number m of a run.
  ghost predicate SweptQuietly(ns: seq<Notification>, ops: seq<Op>, id: nat, profile: Q.Profile, m: nat) {
    m < |ops| && HandsOverQuietly(Run(ns, ops[..m]), ops[m], id, profile)
  }

  // Over any run, mail for a notification goes out in its recipient's quiet hours exactly when some
  // sweep hands it over at a quiet instant. Quiet hours are looked at when a notification is
  // enqueued, and neither by a sweep nor for the date of a retry.
  lemma {:induction false} MailedQuietlyIff(ns: seq<Notification>, ops: seq<Op>, id: nat, profile: Q.Profile)
    requires id < |ns| && ns[id].tries == []
    ensures |ns| <= |Run(ns, ops)|
    ensures MailedQuietly(Run(ns, ops)[id].tries, profile) <==> exists m: nat :: SweptQuietly(ns, ops, id, profile, m)
  {
    if ops != [] {
      var n := |ops| - 1;
      var earlier := ops[..n];
      MailedQuietlyIff(ns, earlier, id, profile);
      StepMailsQuietly(Run(ns, earlier), ops[n], id, profile);
      forall m: nat ensures SweptQuietly(ns, ops, id, profile, m) <==>
        SweptQuietly(ns, earlier, id, profile, m) || (m == n && HandsOverQuietly(Run(ns, earlier), ops[n], id, profile))
      {
        if m < n {
          assert earlier[..m] == ops[..m] && earlier[m] == ops[m];
        }
      }
      if HandsOverQuietly(Run(ns, earlier), ops[n], id, profile) {
        assert SweptQuietly(ns, ops, id, profile, n);
      }
    }
  }

  // One sweep over an outbox of one due notification.
  lemma OneSwept(n: Notification, f: Fate, now: int)
    requires Due(n, now)
    ensures Step([n], SweepOp(now, 1, [f])) == [Delivered(n, f)]
  {
    assert Selected([n], now, 1, 1) == [0] + Selected([n], now, 0, 0) == [0];
    DeliveredAt([n], [0], [f], 0);
  }

  lemma RunOfTwo(ns: seq<Notification>, a: Op, b: Op)
    ensures Run(ns, [a]) == Step(ns, a) && Run(ns, [a, b]) == Step(Step(ns, a), b)
  {
    assert [a][..0] == [] && [a, b][..1] == [a];
  }

  lemma RunOfThree(ns: seq<Notification>, a: Op, b: Op, c: Op)
    ensures Run(ns, [a, b, c]) == Step(Step(Step(ns, a), b), c)
  {
    RunOfTwo(ns, a, b);
    assert [a, b, c][..2] == [a, b];
  }

  // It happens: the worker of the first sweep is killed after counting the refusal on the row.
  lemma AttemptLeftQueued() returns (ops: seq<Op>)
    ensures AllTimely(ops) && |Run([], ops)| == 1
    ensures var n := Run([], ops)[0];
      && n.retryCount == 1 && n.status.RetryNeeded? && n.tries != [] && n.tries[0].outcome == Killed(RowRefused)
      && 1 in n.attempts && n.attempts[1].state.AQueued?
  {
    var profile := Q.Profile(false, None, None, 0);
    var n := Enqueued(InAppEmail, 0, profile, false, true, 0);
    var a, b := EnqueueOp(InAppEmail, 0, profile, false, true, 0), SweepOp(0, 1, [Fate(true, Killed(RowRefused), 0, 0)]);
    ops := [a, b];
    assert Step([], a) == [n];
    OneSwept(n, b.fates[0], 0);
    RunOfTwo([], a, b);
    AttemptsAreContiguous(ops, 0);
  }

  // A due notification that was never refused is swept twice, five minutes apart.
  lemma RefusedThenTaken(n: Notification, t: int)
    requires Due(n, t) && n.retryCount == 0 && n.tries == []
    ensures var first, second := Fate(true, Refused, t, t), Fate(true, Taken, t + RETRY_DELAY, t + RETRY_DELAY);
      && Step(Step([n], SweepOp(t, 1, [first])), SweepOp(t + RETRY_DELAY, 1, [second])) == [Delivered(Delivered(n, first), second)]
      && Delivered(Delivered(n, first), second).tries == [Try(t, Refused, t), Try(t + RETRY_DELAY, Taken, t + RETRY_DELAY)]
  {
    var first, second := Fate(true, Refused, t, t), Fate(true, Taken, t + RETRY_DELAY, t + RETRY_DELAY);
    var once := Delivered(n, first);
    OneSwept(n, first, t);
    DeliveredTries(n, first);
    assert once.status.RetryNeeded? && once.policy == n.policy;
    OneSwept(once, second, t + RETRY_DELAY);
    DeliveredTries(once, second);
  }

  // For every profile: mail sent and refused outside quiet hours, less than five minutes before they
  // begin, is sent again inside them by a sweep that finds it due.
  lemma RetryMailedInQuietHours(profile: Q.Profile, t: int) returns (ops: seq<Op>)
    requires !Q.Quiet(profile, t) && Q.Quiet(profile, t + RETRY_DELAY)
    ensures |ops| == 3 && AllTimely(ops) && ops[0].EnqueueOp? && !ops[0].security && ops[0].profile == profile
    ensures |Run([], ops)| == 1 && MailedQuietly(Run([], ops)[0].tries, profile)
    ensures |Run([], ops)[0].tries| == 2 && !Q.Quiet(profile, Run([], ops)[0].tries[0].at)
  {
    var n := Enqueued(InAppEmail, t, profile, false, true, t);
    var first, second := Fate(true, Refused, t, t), Fate(true, Taken, t + RETRY_DELAY, t + RETRY_DELAY);
    var a, b, c := EnqueueOp(InAppEmail, t, profile, false, true, t), SweepOp(t, 1, [first]), SweepOp(t + RETRY_DELAY, 1, [second]);
    ops := [a, b, c];
    Q.QuietMoves(profile, t);
    assert Step([], a) == [n];
    RefusedThenTaken(n, t);
    RunOfThree([], a, b, c);
    assert Run([], ops)[0].tries[1].at == t + RETRY_DELAY;
  }

  // For every profile: mail held back to the end of quiet hours is sent in the next ones when the
  // first sweep to find it due runs then.
  lemma LateSweepMailsInQuietHours(profile: Q.Profile, candidate: int, late: int) returns (ops: seq<Op>)
    requires late >= Q.EligibleAt(profile, candidate) && Q.Quiet(profile, late)
    ensures |ops| == 2 && AllTimely(ops) && ops[0].EnqueueOp? && !ops[0].security && ops[0].profile == profile
    ensures |Run([], ops)| == 1 && |Run([], ops)[0].tries| == 1 && MailedQuietly(Run([], ops)[0].tries, profile)
  {
    var n := Enqueued(InAppEmail, candidate, profile, false, true, candidate);
    var f := Fate(true, Taken, late, late);
    var a, b := EnqueueOp(InAppEmail, candidate, profile, false, true, candidate), SweepOp(late, 1, [f]);
    ops := [a, b];
    Q.FirstUnquietInstant(profile, candidate);
    assert Step([], a) == [n];
    OneSwept(n, f, late);
    DeliveredTries(n, f);
    RunOfTwo([], a, b);
    assert Run([], ops)[0].tries[0].at == late;
  }

  // Both happen to a profile that is quiet from ten in the evening to seven in the morning: with a
  // refusal at four minutes to ten, and with a sweep at half past ten the evening after.
  lemma QuietMailHappens()
    ensures exists profile, ops :: AllTimely(ops) && |Run([], ops)| == 1 && |Run([], ops)[0].tries| == 2
                                   && MailedQuietly(Run([], ops)[0].tries, profile)
    ensures exists profile, ops :: AllTimely(ops) && |Run([], ops)| == 1 && |Run([], ops)[0].tries| == 1
                                   && MailedQuietly(Run([], ops)[0].tries, profile)
  {
    var hour, minute := 3_600_000_000, 60_000_000;
    var profile := Q.Profile(true, Some(22 * hour), Some(7 * hour), 0);
    var retried := RetryMailedInQuietHours(profile, 22 * hour - 4 * minute);
    var late := LateSweepMailsInQuietHours(profile, 23 * hour, 46 * hour + 30 * minute);
  }

  // ---- Progress -------------------------------------------------------------------------

  predicate NoKill(fates: seq<Fate>) {
    forall i :: 0 <= i < |fates| ==> !fates[i].outcome.Killed?
  }

  lemma DeliveredProgresses(n: Notification, f: Fate, now: int)
    requires Sound(n) && Due(n, now) && Ticks(f, now) && !f.outcome.Killed?
    ensures var d := Delivered(n, f);
      || Settled(d)
      || (d.status.RetryNeeded? && d.policy == n.policy && d.retryCount == n.retryCount + 1
          && d.eligibleAt == f.doneAt + RETRY_DELAY)
  {
  }

  // A sweep with room for everything that is not cut short, in an outbox of `size` rows.
  predicate Complete(op: Op, size: nat) {
    op.SweepOp? && Timely(op) && size <= op.limit && size <= |op.fates| && NoKill(op.fates)
  }

  predicate DoneBefore(fates: seq<Fate>, next: int) {
    forall j :: 0 <= j < |fates| ==> fates[j].doneAt + RETRY_DELAY <= next
  }

  // Each sweep starts five minutes or more after the one before it ended.
  predicate Spaced(ops: seq<Op>) {
    && (forall i :: 0 <= i < |ops| ==> ops[i].SweepOp?)
    && (forall i, j :: 0 <= i < |ops| && j == i + 1 && j < |ops| ==> DoneBefore(ops[i].fates, ops[j].now))
  }

  // A limit as large as the outbox leaves nothing out.
  lemma SelectedFits(ns: seq<Notification>, now: int, limit: nat, k: nat, id: nat)
    requires id < k <= |ns| && k <= limit && Due(ns[id], now)
    ensures |Selected(ns, now, limit, k)| <= k && id in Selected(ns, now, limit, k)
  {
    SelectedAreDue(ns, now, limit, k);
    SelectedDescending(ns, now, limit, k);
    SelectedNewest(ns, now, limit, k, id);
    DescendingIsShort(Selected(ns, now, limit, k), k);
  }

  // Different numbers below k, in falling order: no more than k of them.
  lemma {:induction false} DescendingIsShort(ids: seq<nat>, k: nat)
    requires forall i :: 0 <= i < |ids| ==> ids[i] < k
    requires Descending(ids)
    ensures |ids| <= k
    ensures |ids| == k ==> forall id: nat :: id < k ==> id in ids
  {
    if ids != [] {
      DescendingIsShort(ids[1..], ids[0]);
      if |ids| == k {
        forall id: nat | id < k ensures id in ids {
          assert id == ids[0] || id in ids[1..];
        }
      }
    }
  }

  lemma CompleteSweepDelivers(ns: seq<Notification>, op: Op, id: nat) returns (j: nat)
    requires Complete(op, |ns|) && id < |ns| && Due(ns[id], op.now)
    ensures j < |op.fates| && |Step(ns, op)| == |ns| && Step(ns, op)[id] == Delivered(ns[id], op.fates[j])
  {
    var ids := Selected(ns, op.now, op.limit, |ns|);
    SelectedAreDue(ns, op.now, op.limit, |ns|);
    SelectedDescending(ns, op.now, op.limit, |ns|);
    SelectedNewest(ns, op.now, op.limit, |ns|, id);
    SelectedFits(ns, op.now, op.limit, |ns|, id);
    assert id in ids;
    j :| 0 <= j < |ids| && ids[j] == id;
    DeliveredAt(ns, ids, op.fates, j);
  }

  // After a complete sweep a notification that was due is settled, or has used a try and is due
  // again five minutes after it.
  lemma SweepUsesTry(ns: seq<Notification>, op: Op, id: nat, next: int)
    requires AllSound(ns) && Complete(op, |ns|) && id < |ns| && Due(ns[id], op.now) && DoneBefore(op.fates, next)
    ensures |Step(ns, op)| == |ns|
    ensures var n := Step(ns, op)[id];
      Settled(n) || (n.policy == ns[id].policy && n.retryCount == ns[id].retryCount + 1 && n.eligibleAt <= next)
  {
    var j := CompleteSweepDelivers(ns, op, id);
    DeliveredProgresses(ns[id], op.fates[j], op.now);
  }

  // Open after so many refusals, and due by `next` at the latest.
  ghost predicate UsedUp(n: Notification, count: int, next: int) {
    Settled(n) || (n.policy != InApp && n.retryCount == count && n.eligibleAt <= next)
  }

  // After any number of complete sweeps a due notification is settled or has used up as many of
  // its tries.
  lemma {:induction false} SweepsUseUpTries(ns: seq<Notification>, ops: seq<Op>, id: nat, next: int)
    requires AllSound(ns) && id < |ns| && ns[id].policy != InApp && !Settled(ns[id])
    requires Spaced(ops) && forall i :: 0 <= i < |ops| ==> Complete(ops[i], |ns|)
    requires ns[id].eligibleAt <= if ops == [] then next else ops[0].now
    requires ops != [] ==> DoneBefore(ops[|ops| - 1].fates, next)
    ensures |Run(ns, ops)| == |ns| && AllSound(Run(ns, ops))
    ensures UsedUp(Run(ns, ops)[id], ns[id].retryCount + |ops|, next)
  {
    if ops != [] {
      var earlier, op := ops[..|ops| - 1], ops[|ops| - 1];
      SweepsUseUpTries(ns, earlier, id, op.now);
      var before := Run(ns, earlier);
      StepIsSound(before, op);
      SweepIsSound(before, op.now, op.limit, op.fates);
      if Due(before[id], op.now) {
        SweepUsesTry(before, op, id, next);
      }
    }
  }

  // Five complete sweeps settle every notification that was due at the first.
  lemma FiveSweepsSettle(ns: seq<Notification>, ops: seq<Op>, id: nat)
    requires AllSound(ns) && id < |ns| && |ops| == 5
    requires Spaced(ops) && (forall i :: 0 <= i < |ops| ==> Complete(ops[i], |ns|))
    requires Due(ns[id], ops[0].now)
    ensures |Run(ns, ops)| == |ns| && Settled(Run(ns, ops)[id])
  {
    SweepsUseUpTries(ns, ops, id, LastDone(ops[4].fates) + RETRY_DELAY);
  }

  function LastDone(fates: seq<Fate>): (r: int)
    ensures forall i :: 0 <= i < |fates| ==> fates[i].doneAt <= r
  {
    if fates == [] then 0
    else
      var rest, d := LastDone(fates[..|fates| - 1]), fates[|fates| - 1].doneAt;
      if d > rest then d else rest
  }
}
