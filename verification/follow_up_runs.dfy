// What every run of sweeps, events, acknowledgements and withdrawals keeps.
module FollowUpRuns {
  import opened Clock
  import opened Results
  import opened Outcomes
  import opened Policies
  import opened FollowUps

  datatype Move = SweepMove(now: int, size: nat) | NoteMove(note: Op)

  function Next(ns: seq<Notification>, policyOf: PolicyOf, m: Move): seq<Notification> {
    match m
    case SweepMove(now, size) => Sweep(ns, policyOf, now, size)
    case NoteMove(note) => Outcomes.Step(ns, note)
  }

  function RunAll(ns: seq<Notification>, policyOf: PolicyOf, moves: seq<Move>): seq<Notification> {
    if moves == [] then ns else Next(RunAll(ns, policyOf, moves[..|moves| - 1]), policyOf, moves[|moves| - 1])
  }

  predicate SameCounters(a: Notification, b: Notification) {
    && a.reminderCount == b.reminderCount && a.lastRemindedAt == b.lastRemindedAt
    && a.escalationLevel == b.escalationLevel && a.lastEscalatedAt == b.lastEscalatedAt
  }

  predicate Untouched(n: Notification) {
    n.reminderCount == 0 && n.lastRemindedAt.None? && n.escalationLevel == 0 && n.lastEscalatedAt.None?
  }

  // Only sweeps count.
  lemma NotesKeepCounters(ns: seq<Notification>, note: Op)
    ensures |ns| <= |Outcomes.Step(ns, note)|
    ensures forall i :: 0 <= i < |ns| ==> SameCounters(ns[i], Outcomes.Step(ns, note)[i])
    ensures forall i :: |ns| <= i < |Outcomes.Step(ns, note)| ==> Untouched(Outcomes.Step(ns, note)[i])
  {
  }

  // No registered resolver answers to the event the sweep names, so a sweep completes nothing.
  lemma SweepsCompleteNothing(n: Notification, p: Policy, now: int)
    requires Sound(n)
    ensures Outcomes.Reconciled(n, SCHEDULED, now) == n
    ensures Chased(n, p, now).outcome.Completed? <==> n.outcome.Completed?
  {
  }

  lemma ChasedIsSound(n: Notification, p: Policy, now: int)
    requires Sound(n)
    ensures Sound(Chased(n, p, now)) && MovesUp(n, Chased(n, p, now))
  {
  }

  lemma NextKeepsSound(ns: seq<Notification>, policyOf: PolicyOf, m: Move)
    requires Outcomes.AllSound(ns)
    ensures Outcomes.AllSound(Next(ns, policyOf, m)) && AllMoveUp(ns, Next(ns, policyOf, m))
  {
    match m
    case NoteMove(note) => StepKeepsSound(ns, note);
    case SweepMove(now, size) =>
      forall i | 0 <= i < |ns| ensures Sound(Next(ns, policyOf, m)[i]) && MovesUp(ns[i], Next(ns, policyOf, m)[i]) {
        ChasedIsSound(ns[i], policyOf(ns[i].target), now);
      }
  }

  // Over any run outcomes only move up and no closed follow-up opens again.
  lemma {:induction false} AllRunsMoveUp(ns: seq<Notification>, policyOf: PolicyOf, moves: seq<Move>)
    requires Outcomes.AllSound(ns)
    ensures Outcomes.AllSound(RunAll(ns, policyOf, moves)) && AllMoveUp(ns, RunAll(ns, policyOf, moves))
  {
    if moves != [] {
      AllRunsMoveUp(ns, policyOf, moves[..|moves| - 1]);
      NextKeepsSound(RunAll(ns, policyOf, moves[..|moves| - 1]), policyOf, moves[|moves| - 1]);
    }
  }

  // Nothing more is sent once the outcome has left PENDING.
  lemma {:induction false} SilentOnceSettled(ns: seq<Notification>, policyOf: PolicyOf, moves: seq<Move>, i: nat)
    requires Outcomes.AllSound(ns) && i < |ns| && !Open(ns[i])
    ensures i < |RunAll(ns, policyOf, moves)| && SameCounters(ns[i], RunAll(ns, policyOf, moves)[i])
    ensures !Open(RunAll(ns, policyOf, moves)[i])
  {
    if moves != [] {
      var before, m := RunAll(ns, policyOf, moves[..|moves| - 1]), moves[|moves| - 1];
      SilentOnceSettled(ns, policyOf, moves[..|moves| - 1], i);
      AllRunsMoveUp(ns, policyOf, moves[..|moves| - 1]);
      NextKeepsSound(before, policyOf, m);
      match m
      case NoteMove(note) => NotesKeepCounters(before, note);
      case SweepMove(now, size) => ReachedIff(before, size, i);
    }
  }

  // ---- Pacing ---------------------------------------------------------------------------

  // The k-th reminder comes no sooner than k - 1 intervals after the lead time before the due date.
  predicate Paced(n: Notification, p: Policy) {
    && (n.reminderCount == 0 <==> n.lastRemindedAt.None?)
    && (n.reminderCount > 0 ==>
         && n.dueAt.Some? && n.reminderCount <= p.max
         && n.lastRemindedAt.value >= n.dueAt.value - p.lead * MINUTE + (n.reminderCount - 1) * (p.repeatEvery * MINUTE))
    && n.escalationLevel <= 1
    && (n.escalationLevel == 0 <==> n.lastEscalatedAt.None?)
    && (n.escalationLevel == 1 ==> n.dueAt.Some? && n.lastEscalatedAt.value >= n.dueAt.value + p.delay * MINUTE)
  }

  // Nothing happened after `end`.
  predicate Until(n: Notification, end: int) {
    (n.lastRemindedAt.Some? ==> n.lastRemindedAt.value <= end) && (n.lastEscalatedAt.Some? ==> n.lastEscalatedAt.value <= end)
  }

  lemma ChasedIsPaced(n: Notification, p: Policy, now: int, end: int)
    requires Paced(n, p) && Until(n, end) && now <= end
    ensures Paced(Chased(n, p, now), p) && Until(Chased(n, p, now), end)
  {
    var r := Reminded(n, p, now);
    if ReminderDue(n, p, now) && n.reminderCount > 0 {
      assert (r.reminderCount - 1) * (p.repeatEvery * MINUTE)
        == (n.reminderCount - 1) * (p.repeatEvery * MINUTE) + p.repeatEvery * MINUTE;
    }
  }

  ghost predicate AllPaced(ns: seq<Notification>, policyOf: PolicyOf, end: int) {
    forall i :: 0 <= i < |ns| ==> Paced(ns[i], policyOf(ns[i].target)) && Until(ns[i], end)
  }

  predicate SweepsUntil(moves: seq<Move>, end: int) {
    forall i :: 0 <= i < |moves| && moves[i].SweepMove? ==> moves[i].now <= end
  }

  lemma NextIsPaced(ns: seq<Notification>, policyOf: PolicyOf, m: Move, end: int)
    requires Outcomes.AllSound(ns) && AllPaced(ns, policyOf, end) && (m.SweepMove? ==> m.now <= end)
    ensures AllPaced(Next(ns, policyOf, m), policyOf, end)
  {
    NextKeepsSound(ns, policyOf, m);
    match m
    case NoteMove(note) =>
      NotesKeepCounters(ns, note);
      forall i | 0 <= i < |Next(ns, policyOf, m)|
        ensures Paced(Next(ns, policyOf, m)[i], policyOf(Next(ns, policyOf, m)[i].target)) && Until(Next(ns, policyOf, m)[i], end)
      {
        if i < |ns| {
          assert MovesUp(ns[i], Next(ns, policyOf, m)[i]);
        }
      }
    case SweepMove(now, size) =>
      forall i | 0 <= i < |ns|
        ensures Paced(Next(ns, policyOf, m)[i], policyOf(Next(ns, policyOf, m)[i].target)) && Until(Next(ns, policyOf, m)[i], end)
      {
        ChasedIsPaced(ns[i], policyOf(ns[i].target), now, end);
        assert MovesUp(ns[i], Next(ns, policyOf, m)[i]);
      }
  }

  lemma {:induction false} RunsArePaced(policyOf: PolicyOf, moves: seq<Move>, end: int)
    requires SweepsUntil(moves, end)
    ensures Outcomes.AllSound(RunAll([], policyOf, moves)) && AllPaced(RunAll([], policyOf, moves), policyOf, end)
  {
    AllRunsMoveUp([], policyOf, moves);
    if moves != [] {
      RunsArePaced(policyOf, moves[..|moves| - 1], end);
      NextIsPaced(RunAll([], policyOf, moves[..|moves| - 1]), policyOf, moves[|moves| - 1], end);
    }
  }

  lemma MoreSteps(a: int, b: int, step: int)
    requires a >= b && step > 0
    ensures a * step >= b * step
  {
  }

  lemma QuotientBound(a: int, step: int, x: int)
    requires step > 0 && a * step <= x
    ensures a <= x / step
  {
    if a > x / step {
      MoreSteps(a, x / step + 1, step);
      assert false;
    }
  }

  // By time `end` a follow-up has had at most as many reminders as fit after the lead time, and
  // never more than the policy's maximum.
  lemma RemindersAreBounded(policyOf: PolicyOf, moves: seq<Move>, end: int, i: nat)
    requires SweepsUntil(moves, end) && i < |RunAll([], policyOf, moves)|
    requires RunAll([], policyOf, moves)[i].reminderCount > 0
    requires policyOf(RunAll([], policyOf, moves)[i].target).repeatEvery > 0
    ensures var n := RunAll([], policyOf, moves)[i];
      var p := policyOf(n.target);
      && n.dueAt.Some? && n.reminderCount <= p.max
      && n.reminderCount <= 1 + (end - (n.dueAt.value - p.lead * MINUTE)) / (p.repeatEvery * MINUTE)
  {
    RunsArePaced(policyOf, moves, end);
    var n := RunAll([], policyOf, moves)[i];
    var p := policyOf(n.target);
    assert Paced(n, p) && Until(n, end);
    QuotientBound(n.reminderCount - 1, p.repeatEvery * MINUTE, end - (n.dueAt.value - p.lead * MINUTE));
  }

  // One sweep reminds at most once, a full interval after the reminder before.
  lemma SweepRemindsOnce(n: Notification, p: Policy, now: int)
    ensures var after := Chased(n, p, now);
      && n.reminderCount <= after.reminderCount <= n.reminderCount + 1
      && (after.reminderCount > n.reminderCount ==>
           && after.lastRemindedAt == Some(now) && n.dueAt.Some? && n.dueAt.value - p.lead * MINUTE <= now
           && (n.lastRemindedAt.Some? ==> n.lastRemindedAt.value + p.repeatEvery * MINUTE <= now))
  {
  }

  // Escalation happens once: from then on neither the level nor its time changes.
  lemma {:induction false} EscalatedOnce(ns: seq<Notification>, policyOf: PolicyOf, moves: seq<Move>, i: nat)
    requires Outcomes.AllSound(ns) && i < |ns| && ns[i].escalationLevel == 1
    ensures i < |RunAll(ns, policyOf, moves)|
    ensures RunAll(ns, policyOf, moves)[i].escalationLevel == 1
    ensures RunAll(ns, policyOf, moves)[i].lastEscalatedAt == ns[i].lastEscalatedAt
  {
    AllRunsMoveUp(ns, policyOf, moves);
    if moves != [] {
      var before, m := RunAll(ns, policyOf, moves[..|moves| - 1]), moves[|moves| - 1];
      EscalatedOnce(ns, policyOf, moves[..|moves| - 1], i);
      if m.NoteMove? {
        NotesKeepCounters(before, m.note);
      }
    }
  }

  // ---- The batch can starve -------------------------------------------------------------

  // Open follow-ups that come before id and do not expire up to `end`.
  ghost function Lasting(ns: seq<Notification>, id: nat, end: int): set<nat>
    requires id < |ns|
  {
    set j: nat | j < |ns| && Open(ns[j]) && (ns[j].expiresAt.None? || ns[j].expiresAt.value > end) && Before(ns, j, id)
  }

  // A sweep closes none of them: it completes nothing, and they have not expired.
  lemma SweepKeepsLasting(ns: seq<Notification>, policyOf: PolicyOf, now: int, size: nat, id: nat, end: int)
    requires Outcomes.AllSound(ns) && id < |ns| && now <= end
    ensures Lasting(ns, id, end) <= Lasting(Sweep(ns, policyOf, now, size), id, end)
  {
    var after := Sweep(ns, policyOf, now, size);
    NextKeepsSound(ns, policyOf, SweepMove(now, size));
    forall j | j in Lasting(ns, id, end) ensures j in Lasting(after, id, end) {
      assert MovesUp(ns[j], after[j]) && MovesUp(ns[id], after[id]);
      SweepsCompleteNothing(ns[j], policyOf(ns[j].target), now);
    }
  }

  lemma AddingKeepsLasting(ns: seq<Notification>, note: Op, id: nat, end: int)
    requires id < |ns| && (note.NotifyOp? || note.FollowUpOp?)
    ensures id < |Outcomes.Step(ns, note)| && Lasting(ns, id, end) <= Lasting(Outcomes.Step(ns, note), id, end)
  {
  }

  // Sweeps of at most `size` up to `end`, and new notifications, but no answers to old ones.
  predicate OnlySweptOrAdded(m: Move, size: nat, end: int) {
    match m
    case SweepMove(now, batch) => now <= end && batch <= size
    case NoteMove(note) => note.NotifyOp? || note.FollowUpOp?
  }

  // With a full batch of lasting follow-ups ahead of it, a follow-up is left alone by every later
  // sweep, however overdue it becomes, until one of those ahead is answered or expires.
  lemma {:induction false} StarvedBehindABatch(ns: seq<Notification>, policyOf: PolicyOf, moves: seq<Move>, i: nat, size: nat, end: int)
    requires Outcomes.AllSound(ns) && i < |ns| && |Lasting(ns, i, end)| >= size
    requires forall k :: 0 <= k < |moves| ==> OnlySweptOrAdded(moves[k], size, end)
    ensures i < |RunAll(ns, policyOf, moves)| && RunAll(ns, policyOf, moves)[i] == ns[i]
    ensures Lasting(ns, i, end) <= Lasting(RunAll(ns, policyOf, moves), i, end)
  {
    if moves != [] {
      var before, m := RunAll(ns, policyOf, moves[..|moves| - 1]), moves[|moves| - 1];
      StarvedBehindABatch(ns, policyOf, moves[..|moves| - 1], i, size, end);
      AllRunsMoveUp(ns, policyOf, moves[..|moves| - 1]);
      match m
      case NoteMove(note) => AddingKeepsLasting(before, note, i, end);
      case SweepMove(now, batch) =>
        SweepKeepsLasting(before, policyOf, now, batch, i, end);
        StillAhead(ns, before, i, end);
        ReachedIff(before, batch, i);
    }
  }

  lemma StillAhead(ns: seq<Notification>, later: seq<Notification>, id: nat, end: int)
    requires id < |ns| && id < |later| && Lasting(ns, id, end) <= Lasting(later, id, end)
    ensures |Ahead(later, id)| >= |Lasting(ns, id, end)|
  {
    Smaller(Lasting(ns, id, end), Ahead(later, id));
  }

  lemma Smaller(a: set<nat>, b: set<nat>)
    requires a <= b
    ensures |a| <= |b|
  {
    assert b == a + (b - a);
  }

  lemma {:induction false} RunAppend(ns: seq<Notification>, policyOf: PolicyOf, first: seq<Move>, second: seq<Move>)
    ensures RunAll(ns, policyOf, first + second) == RunAll(RunAll(ns, policyOf, first), policyOf, second)
  {
    if second == [] {
      assert first + second == first;
    } else {
      RunAppend(ns, policyOf, first, second[..|second| - 1]);
      assert (first + second)[..|first + second| - 1] == first + second[..|second| - 1];
    }
  }

  // It happens: two follow-ups are created, and sweeps of one row look at the first of them only. The
  // second is not chased however long its escalation has been due.
  lemma SecondOfTwoStarves(policyOf: PolicyOf, moves: seq<Move>, end: int) returns (start: seq<Move>)
    requires forall k :: 0 <= k < |moves| ==> OnlySweptOrAdded(moves[k], 1, end)
    ensures var ns := RunAll([], policyOf, start + moves);
      && |ns| >= 2 && Open(ns[1]) && Untouched(ns[1]) && ns[1].dueAt == Some(1)
      && forall now :: now >= 1 + policyOf(ns[1].target).delay * MINUTE ==> EscalationDue(ns[1], policyOf(ns[1].target), now)
  {
    var target := ReportTarget(0);
    var first := NoteMove(FollowUpOp(1, Action, NoKey, target, Some(0), None));
    var second := NoteMove(FollowUpOp(2, Action, NoKey, target, Some(1), None));
    start := [first, second];
    assert start[..1] == [first] && [first][..0] == [];
    var ns := [Fresh(1, Action, true, NoKey, target, Some(0), None), Fresh(2, Action, true, NoKey, target, Some(1), None)];
    assert RunAll([], policyOf, [first]) == ns[..1];
    assert RunAll([], policyOf, start) == ns;
    assert 0 in Lasting(ns, 1, end);
    Smaller({0}, Lasting(ns, 1, end));
    StarvedBehindABatch(ns, policyOf, moves, 1, 1, end);
    RunAppend([], policyOf, start, moves);
  }
}
