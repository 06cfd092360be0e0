// E-mail delivery of notifications: bounded retries, with a table of attempts kept beside a retry
// counter (backend/apps/notifications/tasks.py, lines 129-191, and services.py, lines 27-211).
module Delivery {
  import opened Results
  import Q = QuietHours

  const RETRY_DELAY: int := 5 * 60 * 1_000_000

  datatype Policy = InApp | InAppEmail | EmailOnly

  datatype Status = Pending | Queued | Sent | Failed | RetryNeeded | Skipped | InAppOnly

  datatype AttemptState = APending | AQueued | ASent | AFailed | ASkipped

  datatype Attempt = Attempt(state: AttemptState, eligibleAt: int, attemptedAt: Option<int>, completedAt: Option<int>)

  // Each write of a delivery is committed on its own, so a worker can be killed after any of them:
  // after creating the attempt, after marking the row, after marking the attempt, while the mail
  // server has the message, and after recording on the row, but not on the attempt, that the server
  // took or refused it (or that it was not to be sent).
  datatype Point = Created | RowQueued | AttemptQueued | HandedOver | RowSent | RowRefused

  // What happened to one delivery.
  datatype Outcome = Taken | Refused | Killed(after: Point)

  // The mail server was asked; it took the message; it refused it.
  predicate Asked(o: Outcome) { !(o.Killed? && (o.after.Created? || o.after.RowQueued? || o.after.AttemptQueued?)) }

  predicate Accepted(o: Outcome) { o.Taken? || o == Killed(RowSent) }

  predicate TurnedAway(o: Outcome) { o.Refused? || o == Killed(RowRefused) }

  datatype Try = Try(at: int, outcome: Outcome, doneAt: int)

  // `attempts` are the e-mail attempts by number. `tries` is no column: it is what the mail
  // server saw.
  datatype Notification = Notification(
    policy: Policy,
    status: Status,
    eligibleAt: int,
    queuedAt: Option<int>,
    sentAt: Option<int>,
    lastAttemptAt: Option<int>,
    retryCount: nat,
    attempts: map<nat, Attempt>,
    tries: seq<Try>)

  // ---- Recording ------------------------------------------------------------------------

  function AttemptStateFor(status: Status, current: AttemptState): AttemptState {
    match status
    case Queued => AQueued
    case Sent => ASent
    case Skipped => ASkipped
    case _ => current
  }

  // mark_notification_status saves the row first.
  function RowMarked(n: Notification, status: Status, now: int): Notification {
    n.(status := status,
       queuedAt := if status.Queued? then Some(now) else n.queuedAt,
       sentAt := if status.Sent? then Some(now) else n.sentAt)
  }

  function MarkedAttempt(a: Attempt, status: Status, now: int): Attempt {
    a.(state := AttemptStateFor(status, a.state),
       completedAt := if status.Sent? || status.Skipped? then Some(now) else a.completedAt,
       attemptedAt := if a.attemptedAt.Some? then a.attemptedAt else Some(now))
  }

  // Then it saves the current attempt, if there is one.
  function AttemptMarked(n: Notification, status: Status, now: int): Notification {
    var number := n.retryCount + 1;
    if number in n.attempts then n.(attempts := n.attempts[number := MarkedAttempt(n.attempts[number], status, now)]) else n
  }

  // mark_notification_status
  function Marked(n: Notification, status: Status, now: int): Notification {
    AttemptMarked(RowMarked(n, status, now), status, now)
  }

  // mark_notification_attempt_failed saves the row first.
  function RowFailed(n: Notification, retryNeeded: bool, now: int): Notification {
    n.(status := if retryNeeded then RetryNeeded else Failed,
       lastAttemptAt := Some(now),
       retryCount := n.retryCount + 1,
       eligibleAt := now + RETRY_DELAY)
  }

  // Then it saves the attempt just counted, creating it if need be.
  function AttemptFailed(n: Notification, now: int): Notification {
    var attempt := if n.retryCount in n.attempts then n.attempts[n.retryCount] else Attempt(APending, now, None, None);
    n.(attempts := n.attempts[n.retryCount := attempt.(state := AFailed, attemptedAt := Some(now), completedAt := Some(now))])
  }

  // mark_notification_attempt_failed
  function MarkedFailed(n: Notification, retryNeeded: bool, now: int): Notification {
    AttemptFailed(RowFailed(n, retryNeeded, now), now)
  }

  // ---- Creation -------------------------------------------------------------------------

  // enqueue_notification: security mail is not held back and cannot be switched off.
  function Enqueued(policy: Policy, candidate: int, profile: Q.Profile, security: bool, enabled: bool, now: int): Notification {
    var held := if security then candidate else Q.EligibleAt(profile, candidate);
    var mailed := security || enabled;
    if policy.InApp? then Notification(policy, InAppOnly, candidate, None, None, None, 0, map[], [])
    else if !mailed then
      Notification(policy, InAppOnly, candidate, None, None, None, 0, map[1 := Attempt(ASkipped, held, None, Some(now))], [])
    else
      Notification(policy, Pending, if held > candidate then held else candidate, None, None, None, 0,
                   map[1 := Attempt(APending, held, None, None)], [])
  }

  // Rows that reminder jobs insert directly have no attempt yet.
  function Inserted(policy: Policy, eligibleAt: int): Notification {
    Notification(policy, if policy.InApp? then InAppOnly else Pending, eligibleAt, None, None, None, 0, map[], [])
  }

  // ---- One delivery ---------------------------------------------------------------------

  // What the world does to one delivery, with the worker's clock readings.
  datatype Fate = Fate(deliverable: bool, outcome: Outcome, startedAt: int, doneAt: int)

  function WithAttempt(n: Notification): Notification {
    var number := n.retryCount + 1;
    if number in n.attempts then n else n.(attempts := n.attempts[number := Attempt(APending, n.eligibleAt, None, None)])
  }

  function Posted(n: Notification, f: Fate): Notification {
    n.(tries := n.tries + [Try(f.startedAt, f.outcome, f.doneAt)])
  }

  // What is recorded once the mail server has been asked.
  function Recorded(posted: Notification, f: Fate, retryNeeded: bool): Notification {
    match f.outcome
    case Taken => Marked(posted, Sent, f.doneAt)
    case Refused => MarkedFailed(posted, retryNeeded, f.doneAt)
    case Killed(RowSent) => RowMarked(posted, Sent, f.doneAt)
    case Killed(RowRefused) => RowFailed(posted, retryNeeded, f.doneAt)
    case Killed(_) => posted
  }

  // From the attempt on: mark, hand over, record.
  function Handled(n: Notification, f: Fate, retryNeeded: bool): Notification {
    if f.outcome == Killed(Created) then n
    else if f.outcome == Killed(RowQueued) then RowMarked(n, Queued, f.startedAt)
    else if f.outcome == Killed(AttemptQueued) then Marked(n, Queued, f.startedAt)
    else Recorded(Posted(Marked(n, Queued, f.startedAt), f), f, retryNeeded)
  }

  function Delivered(n: Notification, f: Fate): Notification {
    if !f.deliverable then
      if f.outcome.Killed? then RowMarked(n, Skipped, f.startedAt) else Marked(n, Skipped, f.startedAt)
    else Handled(WithAttempt(n), f, n.retryCount < 4)
  }

  // Verification and security mail is sent while it is created; a refusal always asks for a retry.
  function SentAtOnce(n: Notification, f: Fate): Notification {
    Handled(n, f, true)
  }

  // ---- A sweep --------------------------------------------------------------------------

  predicate Due(n: Notification, now: int) {
    && (n.status.Pending? || n.status.RetryNeeded?)
    && (n.policy.InAppEmail? || n.policy.EmailOnly?)
    && n.eligibleAt <= now
  }

  // The newest `limit` due notifications among the first k, newest first.
  function Selected(ns: seq<Notification>, now: int, limit: nat, k: nat): seq<nat>
    requires k <= |ns|
  {
    if k == 0 || limit == 0 then []
    else if Due(ns[k - 1], now) then [k - 1] + Selected(ns, now, limit - 1, k - 1)
    else Selected(ns, now, limit, k - 1)
  }

  // One after the other, until the worker is killed or the fates run out.
  function DeliveredAll(ns: seq<Notification>, ids: seq<nat>, fates: seq<Fate>): seq<Notification>
    requires forall i :: 0 <= i < |ids| ==> ids[i] < |ns|
    decreases |ids|
  {
    if ids == [] || fates == [] then ns
    else
      var after := ns[ids[0] := Delivered(ns[ids[0]], fates[0])];
      if fates[0].outcome.Killed? then after else DeliveredAll(after, ids[1..], fates[1..])
  }

  predicate AllDue(ns: seq<Notification>, ids: seq<nat>, now: int, k: nat)
    requires k <= |ns|
  {
    forall i :: 0 <= i < |ids| ==> ids[i] < k && Due(ns[ids[i]], now)
  }

  lemma {:induction false} SelectedAreDue(ns: seq<Notification>, now: int, limit: nat, k: nat)
    requires k <= |ns|
    ensures |Selected(ns, now, limit, k)| <= limit
    ensures AllDue(ns, Selected(ns, now, limit, k), now, k)
  {
    if k > 0 && limit > 0 {
      if Due(ns[k - 1], now) {
        SelectedAreDue(ns, now, limit - 1, k - 1);
      } else {
        SelectedAreDue(ns, now, limit, k - 1);
      }
    }
  }

  function Sweep(ns: seq<Notification>, now: int, limit: nat, fates: seq<Fate>): seq<Notification> {
    SelectedAreDue(ns, now, limit, |ns|);
    DeliveredAll(ns, Selected(ns, now, limit, |ns|), fates)
  }

  datatype Op =
    | EnqueueOp(policy: Policy, candidate: int, profile: Q.Profile, security: bool, enabled: bool, now: int)
    | InsertOp(policy: Policy, eligibleAt: int)
    | SendAtOnceOp(candidate: int, profile: Q.Profile, fate: Fate)
    | SweepOp(now: int, limit: nat, fates: seq<Fate>)

  // A worker's clock does not run backwards.
  predicate Ticks(f: Fate, now: int) { now <= f.startedAt <= f.doneAt }

  predicate Timely(op: Op) {
    match op
    case SendAtOnceOp(candidate, _, f) => Ticks(f, candidate)
    case SweepOp(now, _, fates) => forall i :: 0 <= i < |fates| ==> Ticks(fates[i], now)
    case _ => true
  }

  function Step(ns: seq<Notification>, op: Op): seq<Notification> {
    match op
    case EnqueueOp(policy, candidate, profile, security, enabled, now) =>
      ns + [Enqueued(policy, candidate, profile, security, enabled, now)]
    case InsertOp(policy, eligibleAt) => ns + [Inserted(policy, eligibleAt)]
    case SendAtOnceOp(candidate, profile, f) =>
      ns + [SentAtOnce(Enqueued(EmailOnly, candidate, profile, true, true, candidate), f)]
    case SweepOp(now, limit, fates) => Sweep(ns, now, limit, fates)
  }

  function Run(ns: seq<Notification>, ops: seq<Op>): seq<Notification> {
    if ops == [] then ns else Step(Run(ns, ops[..|ops| - 1]), ops[|ops| - 1])
  }
}
