// Deliverable review with its on_commit hooks as steps of their own: a request commits first, its
// hooks run later in transactions of their own, and a worker may die before running them
// (backend/apps/projects/execution_services.py, lines 576-596, 653-668 and 738).
module ReviewHooks {
  import E = Execution
  import opened Outcomes
  import R = ReviewFollowUps

  datatype Hook =
    | AskHook(target: Target, recipient: int, purpose: Purpose, due: int)
    | CloseHook(target: Target, event: Event)

  // Every commit leaves a queue of hooks; its ticket is the position of the queue.
  datatype World = World(board: E.Milestone, notes: seq<Notification>, queues: seq<seq<Hook>>)

  datatype Move =
    | CommitMove(op: E.Op, reviewers: seq<int>, advisor: int, due: int)
    | HookMove(ticket: nat, now: int)
    | KillMove(ticket: nat)
    | NoteMove(note: Op)

  function ReviewerHooks(target: Target, reviewers: seq<int>, due: int): seq<Hook> {
    seq(|reviewers|, i requires 0 <= i < |reviewers| => AskHook(target, reviewers[i], ReviewerAction(reviewers[i]), due))
  }

  // The revision an operation submits, recommends or decides.
  function Subject(board: E.Milestone, op: E.Op): Target
    requires R.NewRevision(board, op) || R.NewRecommendation(board, op) || R.NewDecision(board, op)
  {
    if R.NewRevision(board, op) then RevisionTarget(op.id, |board.deliverables[op.id].revisions|)
    else RevisionTarget(op.id, op.revision)
  }

  function HooksOf(board: E.Milestone, m: Move): seq<Hook>
    requires m.CommitMove?
  {
    if R.NewRevision(board, m.op) then
      if m.reviewers != [] then ReviewerHooks(Subject(board, m.op), m.reviewers, m.due)
      else [AskHook(Subject(board, m.op), m.advisor, AdvisorDecision, m.due)]
    else if R.NewRecommendation(board, m.op) then
      [CloseHook(Subject(board, m.op), DeliverableRecommended), AskHook(Subject(board, m.op), m.advisor, AdvisorDecision, m.due)]
    else if R.NewDecision(board, m.op) then [CloseHook(Subject(board, m.op), DeliverableDecided)]
    else []
  }

  function Fired(notes: seq<Notification>, hook: Hook, now: int): seq<Notification> {
    match hook
    case AskHook(target, recipient, purpose, due) => R.Ask(notes, target, recipient, purpose, due)
    case CloseHook(target, event) => AfterEvent(notes, target, event, now)
  }

  predicate Waiting(w: World, ticket: nat) {
    ticket < |w.queues| && w.queues[ticket] != []
  }

  function Next(w: World, m: Move): World {
    match m
    case CommitMove(op, _, _, _) => World(E.Step(w.board, op), w.notes, w.queues + [HooksOf(w.board, m)])
    case HookMove(ticket, now) =>
      if !Waiting(w, ticket) then w
      else World(w.board, Fired(w.notes, w.queues[ticket][0], now), w.queues[ticket := w.queues[ticket][1..]])
    case KillMove(ticket) => if ticket < |w.queues| then w.(queues := w.queues[ticket := []]) else w
    case NoteMove(note) => w.(notes := Step(w.notes, note))
  }

  function Run(w: World, moves: seq<Move>): World {
    if moves == [] then w else Next(Run(w, moves[..|moves| - 1]), moves[|moves| - 1])
  }

  lemma RunSnoc(w: World, moves: seq<Move>, m: Move)
    ensures Run(w, moves + [m]) == Next(Run(w, moves), m)
  {
    assert (moves + [m])[..|moves|] == moves;
  }

  predicate Allowed(m: Move) {
    match m
    case CommitMove(op, reviewers, _, _) => op.SubmitOp? ==> (op.hasReviewer <==> reviewers != [])
    case NoteMove(note) => R.Allowed(R.NoteMove(note))
    case _ => true
  }

  ghost predicate AllAllowed(moves: seq<Move>) {
    forall i :: 0 <= i < |moves| ==> Allowed(moves[i])
  }

  function NewWorld(target: int, keys: set<string>): World {
    World(E.NewMilestone(target, keys), [], [])
  }

  // ---- Invariant ------------------------------------------------------------------------

  predicate OrderlyNote(n: Notification) {
    && Sound(n)
    && (n.active && n.key.Key? && n.key.target.RevisionTarget? ==> n.target == n.key.target)
    && (n.active && n.target.RevisionTarget? ==> n.requirement.Action?)
  }

  predicate OrderlyHook(h: Hook) {
    h.target.RevisionTarget? && (h.CloseHook? ==> Resolves(h.target, h.event))
  }

  ghost predicate Orderly(w: World) {
    && (forall i :: 0 <= i < |w.notes| ==> OrderlyNote(w.notes[i]))
    && (forall t, i :: 0 <= t < |w.queues| && 0 <= i < |w.queues[t]| ==> OrderlyHook(w.queues[t][i]))
  }

  lemma FiredIsOrderly(notes: seq<Notification>, hook: Hook, now: int)
    requires (forall i :: 0 <= i < |notes| ==> OrderlyNote(notes[i])) && OrderlyHook(hook)
    ensures forall i :: 0 <= i < |Fired(notes, hook, now)| ==> OrderlyNote(Fired(notes, hook, now)[i])
  {
  }

  lemma StepKeepsOrderly(w: World, m: Move)
    requires Orderly(w) && Allowed(m)
    ensures Orderly(Next(w, m))
  {
    match m
    case CommitMove(op, _, _, _) =>
    case HookMove(ticket, now) =>
      if Waiting(w, ticket) {
        FiredIsOrderly(w.notes, w.queues[ticket][0], now);
      }
    case KillMove(_) =>
    case NoteMove(note) => StepKeepsSound(w.notes, note);
  }

  lemma {:induction false} RunsAreOrderly(w: World, moves: seq<Move>)
    requires Orderly(w) && AllAllowed(moves)
    ensures Orderly(Run(w, moves))
  {
    if moves != [] {
      RunsAreOrderly(w, moves[..|moves| - 1]);
      StepKeepsOrderly(Run(w, moves[..|moves| - 1]), moves[|moves| - 1]);
    }
  }

  // ---- What is open, from the hooks that ran --------------------------------------------

  predicate AskRuns(w: World, m: Move, target: Target) {
    m.HookMove? && Waiting(w, m.ticket) && w.queues[m.ticket][0].AskHook? && w.queues[m.ticket][0].target == target
  }

  predicate CloseRuns(w: World, m: Move, target: Target) {
    m.HookMove? && Waiting(w, m.ticket) && w.queues[m.ticket][0].CloseHook? && w.queues[m.ticket][0].target == target
  }

  predicate AsksAt(w: World, moves: seq<Move>, target: Target, k: nat) {
    k < |moves| && AskRuns(Run(w, moves[..k]), moves[k], target)
  }

  predicate ClosesAt(w: World, moves: seq<Move>, target: Target, k: nat) {
    k < |moves| && CloseRuns(Run(w, moves[..k]), moves[k], target)
  }

  // Move k runs a hook that asks about the target, and no later move runs one that closes.
  ghost predicate StandsFrom(w: World, moves: seq<Move>, target: Target, k: nat) {
    AsksAt(w, moves, target, k) && forall j: nat :: k < j < |moves| ==> !ClosesAt(w, moves, target, j)
  }

  lemma SameInShorter(w: World, moves: seq<Move>, target: Target, k: nat)
    requires k < |moves| - 1
    ensures AsksAt(w, moves, target, k) <==> AsksAt(w, moves[..|moves| - 1], target, k)
    ensures ClosesAt(w, moves, target, k) <==> ClosesAt(w, moves[..|moves| - 1], target, k)
  {
    assert moves[..|moves| - 1][..k] == moves[..k];
  }

  lemma StandsNext(w: World, moves: seq<Move>, target: Target, k: nat)
    requires k < |moves|
    ensures var n := |moves| - 1;
      StandsFrom(w, moves, target, k) <==>
        if k == n then AsksAt(w, moves, target, n)
        else StandsFrom(w, moves[..n], target, k) && !ClosesAt(w, moves, target, n)
  {
    var n := |moves| - 1;
    forall j: nat | j < n
      ensures AsksAt(w, moves, target, j) <==> AsksAt(w, moves[..n], target, j)
      ensures ClosesAt(w, moves, target, j) <==> ClosesAt(w, moves[..n], target, j)
    {
      SameInShorter(w, moves, target, j);
    }
  }

  ghost predicate AnyOpen(notes: seq<Notification>, target: Target) {
    exists i :: 0 <= i < |notes| && R.OpenOn(notes[i], target)
  }

  // One move opens something on a revision only by running a hook that asks, and a hook that closes
  // leaves nothing open.
  lemma StepOpens(w: World, m: Move, target: Target)
    requires Orderly(w) && Allowed(m) && target.RevisionTarget?
    ensures AnyOpen(Next(w, m).notes, target) ==> AskRuns(w, m, target) || AnyOpen(w.notes, target)
    ensures CloseRuns(w, m, target) ==> !AnyOpen(Next(w, m).notes, target)
  {
    var after := Next(w, m).notes;
    if m.HookMove? && Waiting(w, m.ticket) {
      assert OrderlyHook(w.queues[m.ticket][0]);
      FiredKeeps(w.notes, w.queues[m.ticket][0], m.now, target);
    } else if m.NoteMove? {
      StepKeepsSound(w.notes, m.note);
      if i :| 0 <= i < |after| && R.OpenOn(after[i], target) {
        assert i < |w.notes|;
        assert R.OpenOn(w.notes[i], target);
      }
    }
  }

  lemma FiredKeeps(notes: seq<Notification>, hook: Hook, now: int, target: Target)
    requires (forall i :: 0 <= i < |notes| ==> OrderlyNote(notes[i])) && OrderlyHook(hook) && target.RevisionTarget?
    ensures hook.target != target ==> (AnyOpen(Fired(notes, hook, now), target) <==> AnyOpen(notes, target))
    ensures hook.target == target ==> (AnyOpen(Fired(notes, hook, now), target) <==> hook.AskHook?)
  {
    var after := Fired(notes, hook, now);
    if hook.target != target {
      forall i | 0 <= i < |notes| ensures R.OpenOn(after[i], target) <==> R.OpenOn(notes[i], target) {}
      assert forall i :: |notes| <= i < |after| ==> !R.OpenOn(after[i], target);
      if AnyOpen(notes, target) {
        var i :| 0 <= i < |notes| && R.OpenOn(notes[i], target);
        assert R.OpenOn(after[i], target);
      }
    } else if hook.AskHook? {
      if HasOpen(notes, hook.recipient, Key(target, hook.purpose)) {
        var i :| 0 <= i < |notes| && OpenWith(notes[i], hook.recipient, Key(target, hook.purpose));
        assert OrderlyNote(notes[i]);
        assert R.OpenOn(after[i], target);
      } else {
        assert R.OpenOn(after[|notes|], target);
      }
    } else {
      forall i | 0 <= i < |notes| ensures !R.OpenOn(after[i], target) {
        assert OrderlyNote(notes[i]);
      }
    }
  }

  // Whatever the order in which hooks run or die, a follow-up is open on a revision only if a hook
  // asked for one and no hook has closed the revision since.
  lemma {:induction false} OpenMeansAsked(w: World, moves: seq<Move>, target: Target) returns (k: nat)
    requires Orderly(w) && !AnyOpen(w.notes, target) && AllAllowed(moves) && target.RevisionTarget?
    requires AnyOpen(Run(w, moves).notes, target)
    ensures StandsFrom(w, moves, target, k)
  {
    var n := |moves| - 1;
    var before := Run(w, moves[..n]);
    RunsAreOrderly(w, moves[..n]);
    StepOpens(before, moves[n], target);
    if AskRuns(before, moves[n], target) {
      k := n;
    } else {
      k := OpenMeansAsked(w, moves[..n], target);
    }
    StandsNext(w, moves, target, k);
  }

  // Nobody acknowledges, expires, withdraws or reconciles notifications by hand.
  ghost predicate NotesOnlyAdded(moves: seq<Move>) {
    forall i :: 0 <= i < |moves| && moves[i].NoteMove? ==> moves[i].note.NotifyOp? || moves[i].note.FollowUpOp?
  }

  lemma StepKeepsOpen(w: World, m: Move, target: Target)
    requires Orderly(w) && target.RevisionTarget? && (m.NoteMove? ==> m.note.NotifyOp? || m.note.FollowUpOp?)
    ensures AskRuns(w, m, target) ==> AnyOpen(Next(w, m).notes, target)
    ensures AnyOpen(w.notes, target) && !CloseRuns(w, m, target) ==> AnyOpen(Next(w, m).notes, target)
  {
    var after := Next(w, m).notes;
    if m.HookMove? && Waiting(w, m.ticket) {
      assert OrderlyHook(w.queues[m.ticket][0]);
      FiredKeeps(w.notes, w.queues[m.ticket][0], m.now, target);
    } else if i :| 0 <= i < |w.notes| && R.OpenOn(w.notes[i], target) {
      assert after[i] == w.notes[i];
    }
  }

  lemma {:induction false} StandingStaysOpen(w: World, moves: seq<Move>, target: Target, k: nat)
    requires Orderly(w) && AllAllowed(moves) && target.RevisionTarget? && NotesOnlyAdded(moves)
    requires StandsFrom(w, moves, target, k)
    ensures AnyOpen(Run(w, moves).notes, target)
  {
    var n := |moves| - 1;
    StandsNext(w, moves, target, k);
    RunsAreOrderly(w, moves[..n]);
    StepKeepsOpen(Run(w, moves[..n]), moves[n], target);
    if k < n {
      StandingStaysOpen(w, moves[..n], target, k);
    }
  }

  // Where only hooks close follow-ups, that is exactly when one is open.
  lemma OpenIffAsked(w: World, moves: seq<Move>, target: Target)
    requires Orderly(w) && !AnyOpen(w.notes, target) && AllAllowed(moves) && target.RevisionTarget?
    requires NotesOnlyAdded(moves)
    ensures AnyOpen(Run(w, moves).notes, target) <==> exists k: nat :: StandsFrom(w, moves, target, k)
  {
    if AnyOpen(Run(w, moves).notes, target) {
      var k := OpenMeansAsked(w, moves, target);
    }
    if k: nat :| StandsFrom(w, moves, target, k) {
      StandingStaysOpen(w, moves, target, k);
    }
  }

  // ---- After a decision -----------------------------------------------------------------

  // Move c is the commit that left the queue with this ticket.
  predicate CommitOf(w: World, moves: seq<Move>, ticket: nat, c: nat) {
    c < |moves| && moves[c].CommitMove? && |Run(w, moves[..c]).queues| == ticket
  }

  // Every hook still waiting was queued by one commit.
  lemma {:induction false} HookHasCommit(w: World, moves: seq<Move>, ticket: nat, hook: Hook) returns (c: nat)
    requires w.queues == [] && ticket < |Run(w, moves).queues| && hook in Run(w, moves).queues[ticket]
    ensures CommitOf(w, moves, ticket, c) && hook in HooksOf(Run(w, moves[..c]).board, moves[c])
  {
    var n := |moves| - 1;
    var before := Run(w, moves[..n]);
    if ticket == |before.queues| {
      c := n;
    } else {
      c := HookHasCommit(w, moves[..n], ticket, hook);
      assert moves[..n][..c] == moves[..c];
    }
  }

  // Move q runs the hook of the revision's decision.
  predicate DecisionHookAt(w: World, moves: seq<Move>, target: Target, q: nat) {
    && ClosesAt(w, moves, target, q)
    && Run(w, moves[..q]).queues[moves[q].ticket][0].event.DeliverableDecided?
  }

  // The commit whose hook runs as move k.
  lemma RunningHookHasCommit(w: World, moves: seq<Move>, k: nat, target: Target) returns (c: nat)
    requires w.queues == [] && (AsksAt(w, moves, target, k) || ClosesAt(w, moves, target, k))
    ensures c < k && CommitOf(w, moves, moves[k].ticket, c)
    ensures Run(w, moves[..k]).queues[moves[k].ticket][0] in HooksOf(Run(w, moves[..c]).board, moves[c])
  {
    c := HookHasCommit(w, moves[..k], moves[k].ticket, Run(w, moves[..k]).queues[moves[k].ticket][0]);
    assert moves[..k][..c] == moves[..c];
  }

  predicate DecidedTarget(board: E.Milestone, target: Target) {
    target.RevisionTarget? && R.Exists(board, target.deliverable, target.revision)
    && R.Decided(board, target.deliverable, target.revision)
  }

  lemma StepKeepsDecided(w: World, m: Move, target: Target)
    requires DecidedTarget(w.board, target)
    ensures DecidedTarget(Next(w, m).board, target)
  {
    if m.CommitMove? {
      R.RecordsAfter(w.board, m.op, target.deliverable, target.revision);
    }
  }

  lemma DecisionDecides(w: World, m: Move)
    requires m.CommitMove? && R.NewDecision(w.board, m.op)
    ensures DecidedTarget(Next(w, m).board, Subject(w.board, m.op))
  {
    R.RecordsAfter(w.board, m.op, m.op.id, m.op.revision);
  }

  lemma {:induction false} DecidedStays(w: World, moves: seq<Move>, more: seq<Move>, target: Target)
    requires DecidedTarget(Run(w, moves).board, target)
    ensures DecidedTarget(Run(w, moves + more).board, target)
  {
    if more == [] {
      assert moves + more == moves;
    } else {
      var n := |more| - 1;
      DecidedStays(w, moves, more[..n], target);
      assert moves + more[..n] + [more[n]] == moves + more;
      RunSnoc(w, moves + more[..n], more[n]);
      StepKeepsDecided(Run(w, moves + more[..n]), more[n], target);
    }
  }

  // A revision is decided in every later state.
  lemma DecidedFromThen(w: World, moves: seq<Move>, decision: nat, c: nat)
    requires decision < c <= |moves| && moves[decision].CommitMove?
    requires R.NewDecision(Run(w, moves[..decision]).board, moves[decision].op)
    ensures DecidedTarget(Run(w, moves[..c]).board, Subject(Run(w, moves[..decision]).board, moves[decision].op))
  {
    var before, m := Run(w, moves[..decision]), moves[decision];
    DecisionDecides(before, m);
    RunSnoc(w, moves[..decision], m);
    DecidedStays(w, moves[..decision] + [m], moves[decision + 1..c], Subject(before.board, m.op));
    assert moves[..decision] + [m] + moves[decision + 1..c] == moves[..c];
  }

  lemma StandsLater(w: World, moves: seq<Move>, target: Target, k: nat, q: nat)
    requires StandsFrom(w, moves, target, k) && ClosesAt(w, moves, target, q)
    ensures q < k
  {
  }

  // What a hook tells of the request that queued it.
  lemma HookTells(board: E.Milestone, m: Move, hook: Hook)
    requires m.CommitMove? && hook in HooksOf(board, m)
    ensures hook.AskHook? ==> R.NewRevision(board, m.op) || R.NewRecommendation(board, m.op)
    ensures hook.CloseHook? && hook.event.DeliverableDecided? ==> R.NewDecision(board, m.op)
    ensures (R.NewRevision(board, m.op) || R.NewRecommendation(board, m.op) || R.NewDecision(board, m.op))
      && hook.target == Subject(board, m.op)
  {
  }

  lemma NotSubmittedAgain(board: E.Milestone, op: E.Op, target: Target)
    requires DecidedTarget(board, target) && R.NewRevision(board, op)
    ensures Subject(board, op) != target
  {
    R.NewRevisionIsOpen(board, op);
  }

  // What is open once the decision's hook has run was asked for by a hook that ran later still. The
  // request behind that hook recommends the revision although it is decided already, or it committed
  // before the decision and its hook was overtaken by the decision's.
  lemma OpenAfterDecision(w: World, moves: seq<Move>, target: Target, q: nat) returns (k: nat, c: nat, decision: nat)
    requires Orderly(w) && w.queues == [] && !AnyOpen(w.notes, target) && AllAllowed(moves) && target.RevisionTarget?
    requires DecisionHookAt(w, moves, target, q) && AnyOpen(Run(w, moves).notes, target)
    ensures q < k && StandsFrom(w, moves, target, k)
    ensures c < k && CommitOf(w, moves, moves[k].ticket, c)
    ensures decision < q && CommitOf(w, moves, moves[q].ticket, decision)
      && R.NewDecision(Run(w, moves[..decision]).board, moves[decision].op)
    ensures var board := Run(w, moves[..c]).board;
      && (R.NewRevision(board, moves[c].op) || R.NewRecommendation(board, moves[c].op))
      && Subject(board, moves[c].op) == target
      && if decision < c then R.NewRecommendation(board, moves[c].op) && DecidedTarget(board, target)
         else c < decision
  {
    k := OpenMeansAsked(w, moves, target);
    StandsLater(w, moves, target, k, q);
    c := RunningHookHasCommit(w, moves, k, target);
    decision := RunningHookHasCommit(w, moves, q, target);
    HookTells(Run(w, moves[..c]).board, moves[c], Run(w, moves[..k]).queues[moves[k].ticket][0]);
    HookTells(Run(w, moves[..decision]).board, moves[decision], Run(w, moves[..q]).queues[moves[q].ticket][0]);
    if decision < c {
      DecidedFromThen(w, moves, decision, c);
      if R.NewRevision(Run(w, moves[..c]).board, moves[c].op) {
        NotSubmittedAgain(Run(w, moves[..c]).board, moves[c].op, target);
      }
    }
  }

  // Where only hooks close follow-ups: the decision's hook leaves its revision without open follow-ups
  // for good exactly when no hook that ran after it stands.
  lemma DecisionClosesIff(w: World, moves: seq<Move>, target: Target, q: nat)
    requires Orderly(w) && !AnyOpen(w.notes, target) && AllAllowed(moves) && target.RevisionTarget?
    requires NotesOnlyAdded(moves) && DecisionHookAt(w, moves, target, q)
    ensures AnyOpen(Run(w, moves).notes, target) <==> exists k: nat :: q < k && StandsFrom(w, moves, target, k)
  {
    OpenIffAsked(w, moves, target);
    forall k: nat | StandsFrom(w, moves, target, k) ensures q < k {
      StandsLater(w, moves, target, k, q);
    }
  }

  // ---- Hooks that run at once -----------------------------------------------------------

  function FiredAll(notes: seq<Notification>, hooks: seq<Hook>, now: int): seq<Notification> {
    if hooks == [] then notes else Fired(FiredAll(notes, hooks[..|hooks| - 1], now), hooks[|hooks| - 1], now)
  }

  lemma {:induction false} RunAppend(w: World, first: seq<Move>, second: seq<Move>)
    ensures Run(w, first + second) == Run(Run(w, first), second)
  {
    if second == [] {
      assert first + second == first;
    } else {
      var n := |second| - 1;
      RunAppend(w, first, second[..n]);
      RunSnoc(w, first + second[..n], second[n]);
      RunSnoc(Run(w, first), second[..n], second[n]);
      assert first + second[..n] + [second[n]] == first + second && second[..n] + [second[n]] == second;
    }
  }

  function Repeated(m: Move, n: nat): seq<Move> {
    seq(n, _ => m)
  }

  lemma {:induction false} RunQueue(w: World, ticket: nat, now: int, n: nat)
    requires ticket < |w.queues| && n <= |w.queues[ticket]|
    ensures var queue := w.queues[ticket];
      Run(w, Repeated(HookMove(ticket, now), n))
      == World(w.board, FiredAll(w.notes, queue[..n], now), w.queues[ticket := queue[n..]])
  {
    var moves, queue := Repeated(HookMove(ticket, now), n), w.queues[ticket];
    if n == 0 {
      assert w.queues[ticket := queue[0..]] == w.queues;
    } else {
      RunQueue(w, ticket, now, n - 1);
      assert moves[..n - 1] == Repeated(HookMove(ticket, now), n - 1);
      assert queue[..n][..n - 1] == queue[..n - 1];
      assert queue[n - 1..][1..] == queue[n..];
    }
  }

  // A request whose hooks run before anything else happens.
  function Prompt(w: World, m: R.Move): seq<Move> {
    match m
    case BoardMove(op, reviewers, advisor, due, now) =>
      var commit := CommitMove(op, reviewers, advisor, due);
      [commit] + Repeated(HookMove(|w.queues|, now), |HooksOf(w.board, commit)|)
    case NoteMove(note) => [NoteMove(note)]
  }

  function Prompted(w: World, moves: seq<R.Move>): seq<Move> {
    if moves == [] then []
    else
      var before := Prompted(w, moves[..|moves| - 1]);
      before + Prompt(Run(w, before), moves[|moves| - 1])
  }

  lemma {:induction false} ReviewersAsked(notes: seq<Notification>, target: Target, reviewers: seq<int>, due: int, now: int)
    ensures FiredAll(notes, ReviewerHooks(target, reviewers, due), now) == R.AskReviewers(notes, target, reviewers, due)
  {
    if reviewers != [] {
      var n := |reviewers| - 1;
      ReviewersAsked(notes, target, reviewers[..n], due, now);
      assert ReviewerHooks(target, reviewers, due)[..n] == ReviewerHooks(target, reviewers[..n], due);
    }
  }

  lemma HooksAreTheHooks(w: World, m: R.Move)
    requires m.BoardMove?
    ensures FiredAll(w.notes, HooksOf(w.board, CommitMove(m.op, m.reviewers, m.advisor, m.due)), m.now)
         == R.Hooks(R.World(w.board, w.notes), m)
  {
    var hooks := HooksOf(w.board, CommitMove(m.op, m.reviewers, m.advisor, m.due));
    if R.NewRevision(w.board, m.op) && m.reviewers != [] {
      ReviewersAsked(w.notes, Subject(w.board, m.op), m.reviewers, m.due, m.now);
    } else if R.NewRecommendation(w.board, m.op) {
      assert hooks[..1] == [hooks[0]] && hooks[..1][..0] == [];
      assert FiredAll(w.notes, hooks[..1], m.now) == Fired(w.notes, hooks[0], m.now);
    } else if hooks != [] {
      assert hooks[..0] == [];
    }
  }

  // A commit and all its hooks, one after the other.
  lemma CommitAndHooks(w: World, commit: Move, now: int)
    requires commit.CommitMove?
    ensures var hooks := HooksOf(w.board, commit);
      var after := Run(w, [commit] + Repeated(HookMove(|w.queues|, now), |hooks|));
      after.board == E.Step(w.board, commit.op) && after.notes == FiredAll(w.notes, hooks, now)
  {
    var hooks := HooksOf(w.board, commit);
    RunSnoc(w, [], commit);
    assert [] + [commit] == [commit];
    RunAppend(w, [commit], Repeated(HookMove(|w.queues|, now), |hooks|));
    RunQueue(Next(w, commit), |w.queues|, now, |hooks|);
    assert hooks[..|hooks|] == hooks;
  }

  lemma PromptIsWhole(w: World, m: R.Move)
    ensures var after := Run(w, Prompt(w, m));
      R.World(after.board, after.notes) == R.Next(R.World(w.board, w.notes), m)
  {
    match m
    case BoardMove(op, reviewers, advisor, due, now) =>
      CommitAndHooks(w, CommitMove(op, reviewers, advisor, due), now);
      HooksAreTheHooks(w, m);
    case NoteMove(note) =>
      RunSnoc(w, [], NoteMove(note));
      assert [] + [NoteMove(note)] == Prompt(w, m);
  }

  // Runs in which every commit's hooks run at once are exactly the runs of ReviewFollowUps, so its
  // results hold of them.
  lemma {:induction false} PromptRunsAreWhole(w: World, moves: seq<R.Move>)
    ensures var after := Run(w, Prompted(w, moves));
      R.World(after.board, after.notes) == R.RunWorld(R.World(w.board, w.notes), moves)
  {
    if moves != [] {
      var before, m := Prompted(w, moves[..|moves| - 1]), moves[|moves| - 1];
      PromptRunsAreWhole(w, moves[..|moves| - 1]);
      RunAppend(w, before, Prompt(Run(w, before), m));
      PromptIsWhole(Run(w, before), m);
    }
  }

  // ---- What interleaving and dying workers can do ---------------------------------------

  ghost predicate Reachable(w: World) {
    exists moves :: AllAllowed(moves) && w == Run(NewWorld(0, {}), moves)
  }

  lemma ReachNext(w: World, m: Move)
    requires Reachable(w) && Allowed(m)
    ensures Reachable(Next(w, m)) && Orderly(w) && Orderly(Next(w, m))
  {
    var start := NewWorld(0, {});
    var moves :| AllAllowed(moves) && w == Run(start, moves);
    RunSnoc(start, moves, m);
    assert AllAllowed(moves + [m]);
    RunsAreOrderly(start, moves);
    StepKeepsOrderly(w, m);
  }

  const FIRST := RevisionTarget(0, 0)

  function Recommends(): Move { CommitMove(E.RecommendOp(0, 0, 5, E.Accept, "why"), [], 1, 0) }

  function Decides(): Move { CommitMove(E.DecideOp(0, 0, E.Accept, "", "", 0, 0), [], 1, 0) }

  // One deliverable with an undecided revision, about which the advisor is asked.
  ghost predicate Asked(w: World) {
    && Orderly(w) && w.queues == [[], []] && AnyOpen(w.notes, FIRST)
    && R.Exists(w.board, 0, 0) && !R.Decided(w.board, 0, 0) && !w.board.deliverables[0].reviewerRequired
  }

  lemma SubmittedIsReachable() returns (w: World)
    ensures Reachable(w) && Orderly(w) && w.queues == [[], [AskHook(FIRST, 1, AdvisorDecision, 0)]]
    ensures R.Exists(w.board, 0, 0) && !R.Decided(w.board, 0, 0) && !w.board.deliverables[0].reviewerRequired
  {
    w := NewWorld(0, {});
    assert w == Run(w, []) && AllAllowed([]);
    var creates := CommitMove(E.CreateOp(true, false, false), [], 1, 0);
    ReachNext(w, creates);
    w := Next(w, creates);
    var submits := CommitMove(E.SubmitOp(0, "", 1, false, 0, 0), [], 1, 0);
    ReachNext(w, submits);
    w := Next(w, submits);
  }

  lemma AskedIsReachable() returns (w: World)
    ensures Reachable(w) && Asked(w)
  {
    w := SubmittedIsReachable();
    ReachNext(w, HookMove(1, 0));
    FiredKeeps(w.notes, w.queues[1][0], 0, FIRST);
    w := Next(w, HookMove(1, 0));
  }

  ghost predicate FinalFirst(w: World) {
    R.Exists(w.board, 0, 0) && R.Decided(w.board, 0, 0) && R.Final(R.StateOf(w.board, 0, 0))
  }

  lemma BothCommitted() returns (w: World)
    ensures Reachable(w) && FinalFirst(w) && |w.queues| == 4
    ensures w.queues[2] == [CloseHook(FIRST, DeliverableRecommended), AskHook(FIRST, 1, AdvisorDecision, 0)]
    ensures w.queues[3] == [CloseHook(FIRST, DeliverableDecided)]
  {
    w := AskedIsReachable();
    ReachNext(w, Recommends());
    w := Next(w, Recommends());
    ReachNext(w, Decides());
    w := Next(w, Decides());
  }

  // A recommendation and then a decision commit; the decision's hook runs, then the hooks of the
  // recommendation. The revision is finally accepted, nobody recommended it since, and the advisor is
  // asked to decide.
  lemma OvertakenHookReopens()
    ensures exists w :: Reachable(w) && FinalFirst(w) && AnyOpen(w.notes, FIRST)
  {
    var w := BothCommitted();
    ReachNext(w, HookMove(3, 0));
    var w1 := Next(w, HookMove(3, 0));
    ReachNext(w1, HookMove(2, 0));
    var w2 := Next(w1, HookMove(2, 0));
    ReachNext(w2, HookMove(2, 0));
    FiredKeeps(w2.notes, w2.queues[2][0], 0, FIRST);
    assert FinalFirst(Next(w2, HookMove(2, 0)));
  }

  // A worker dies before the hook of a decision: the advisor's follow-up outlives the decision.
  lemma KilledHookLeavesItOpen()
    ensures exists w :: Reachable(w) && FinalFirst(w) && AnyOpen(w.notes, FIRST) && (forall t: nat :: !Waiting(w, t))
  {
    var w := AskedIsReachable();
    ReachNext(w, Decides());
    w := Next(w, Decides());
    assert FinalFirst(w);
    ReachNext(w, KillMove(2));
    w := Next(w, KillMove(2));
    assert w.queues == [[], [], []];
  }

  // It dies between the hooks of a recommendation: nobody is asked to decide.
  lemma KilledHookAsksNobody()
    ensures exists w ::
      && Reachable(w) && !AnyOpen(w.notes, FIRST)
      && R.Exists(w.board, 0, 0) && R.Recommended(R.StateOf(w.board, 0, 0)) && !R.Decided(w.board, 0, 0)
  {
    var w := AskedIsReachable();
    ReachNext(w, Recommends());
    var w1 := Next(w, Recommends());
    assert w1.queues[2] == [CloseHook(FIRST, DeliverableRecommended), AskHook(FIRST, 1, AdvisorDecision, 0)];
    ReachNext(w1, HookMove(2, 0));
    FiredKeeps(w1.notes, w1.queues[2][0], 0, FIRST);
    var w2 := Next(w1, HookMove(2, 0));
    ReachNext(w2, KillMove(2));
    assert R.Exists(w2.board, 0, 0);
  }
}
