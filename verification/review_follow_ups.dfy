// Follow-ups of deliverable review: what submitting, recommending and deciding leave open
// (backend/apps/projects/execution_services.py, lines 38-74, 576-596, 653-668 and 731-739). A commit
// and its on_commit hooks are one step here; module ReviewHooks takes them apart.
module ReviewFollowUps {
  import opened Results
  import E = Execution
  import opened Outcomes

  datatype World = World(board: E.Milestone, notes: seq<Notification>)

  // A board operation with the people it notifies, or anything else that happens to
  // notifications.
  datatype Move =
    | BoardMove(op: E.Op, reviewers: seq<int>, advisor: int, due: int, now: int)
    | NoteMove(note: Op)

  function Ask(notes: seq<Notification>, target: Target, recipient: int, purpose: Purpose, due: int): seq<Notification> {
    FollowedUp(notes, recipient, Action, Key(target, purpose), target, Some(due), None)
  }

  function AskReviewers(notes: seq<Notification>, target: Target, reviewers: seq<int>, due: int): seq<Notification> {
    if reviewers == [] then notes
    else
      var reviewer := reviewers[|reviewers| - 1];
      Ask(AskReviewers(notes, target, reviewers[..|reviewers| - 1], due), target, reviewer, ReviewerAction(reviewer), due)
  }

  // The submission hooks: everyone designated to review, or the advisor if nobody is.
  function OnSubmit(notes: seq<Notification>, target: Target, m: Move): seq<Notification>
    requires m.BoardMove?
  {
    if m.reviewers != [] then AskReviewers(notes, target, m.reviewers, m.due)
    else Ask(notes, target, m.advisor, AdvisorDecision, m.due)
  }

  function OnRecommend(notes: seq<Notification>, target: Target, m: Move): seq<Notification>
    requires m.BoardMove?
  {
    Ask(AfterEvent(notes, target, DeliverableRecommended, m.now), target, m.advisor, AdvisorDecision, m.due)
  }

  // A retry that finds its earlier result runs no hooks.
  predicate NewRevision(board: E.Milestone, op: E.Op) {
    op.SubmitOp? && E.Apply(board, op).Ok?
    && !(op.key != "" && E.RevisionKeyUsed(board.deliverables[op.id].revisions, op.key))
  }

  predicate NewRecommendation(board: E.Milestone, op: E.Op) {
    op.RecommendOp? && E.Apply(board, op).Ok?
  }

  predicate NewDecision(board: E.Milestone, op: E.Op) {
    op.DecideOp? && E.Apply(board, op).Ok? && board.deliverables[op.id].revisions[op.revision].decision.None?
  }

  function Hooks(w: World, m: Move): seq<Notification>
    requires m.BoardMove?
  {
    if NewRevision(w.board, m.op) then OnSubmit(w.notes, RevisionTarget(m.op.id, |w.board.deliverables[m.op.id].revisions|), m)
    else if NewRecommendation(w.board, m.op) then OnRecommend(w.notes, RevisionTarget(m.op.id, m.op.revision), m)
    else if NewDecision(w.board, m.op) then AfterEvent(w.notes, RevisionTarget(m.op.id, m.op.revision), DeliverableDecided, m.now)
    else w.notes
  }

  // Only these hooks ask for follow-ups on revisions.
  predicate Allowed(m: Move) {
    match m
    case BoardMove(op, reviewers, _, _, _) => op.SubmitOp? ==> (op.hasReviewer <==> reviewers != [])
    case NoteMove(note) =>
      note.FollowUpOp? ==> !note.target.RevisionTarget? && (note.key.Key? ==> !note.key.target.RevisionTarget?)
  }

  function Next(w: World, m: Move): World {
    match m
    case BoardMove(op, _, _, _, _) => World(E.Step(w.board, op), Hooks(w, m))
    case NoteMove(note) => World(w.board, Step(w.notes, note))
  }

  function RunWorld(w: World, moves: seq<Move>): World {
    if moves == [] then w else Next(RunWorld(w, moves[..|moves| - 1]), moves[|moves| - 1])
  }

  // ---- What is open on a revision -------------------------------------------------------

  predicate OpenOn(n: Notification, target: Target) {
    n.active && n.target == target
  }

  predicate Exists(board: E.Milestone, d: nat, r: nat) {
    d < |board.deliverables| && r < |board.deliverables[d].revisions|
  }

  function StateOf(board: E.Milestone, d: nat, r: nat): E.RevisionState
    requires Exists(board, d, r)
  {
    board.deliverables[d].revisions[r].state
  }

  predicate Recommended(s: E.RevisionState) { s.RecommendedAccept? || s.RecommendedReturn? }

  predicate Final(s: E.RevisionState) { s.FinallyAccepted? || s.FinallyReturned? }

  // An open follow-up on a revision asks for an action on an existing revision that is not
  // finally decided; once recommended, it asks for the advisor's decision.
  predicate Fits(board: E.Milestone, n: Notification) {
    && Sound(n)
    && (n.active && n.key.Key? && n.key.target.RevisionTarget? ==> n.target == n.key.target)
    && (n.active && n.target.RevisionTarget? ==>
         && n.requirement.Action? && n.key.Key? && n.key.target == n.target
         && Exists(board, n.target.deliverable, n.target.revision)
         && var s := StateOf(board, n.target.deliverable, n.target.revision);
            !Final(s) && (Recommended(s) ==> n.key.purpose.AdvisorDecision?))
  }

  ghost predicate AllFit(w: World) {
    forall i :: 0 <= i < |w.notes| ==> Fits(w.board, w.notes[i])
  }

  ghost predicate AskedOnce(notes: seq<Notification>, target: Target) {
    forall i, j :: 0 <= i < j < |notes| && OpenOn(notes[i], target) ==> !OpenOn(notes[j], target)
  }

  // No two open follow-ups on a recommended revision.
  ghost predicate OneDecisionAsked(w: World) {
    forall d: nat, r: nat :: Exists(w.board, d, r) && Recommended(StateOf(w.board, d, r)) ==> AskedOnce(w.notes, RevisionTarget(d, r))
  }

  ghost predicate Coherent(w: World) {
    AllFit(w) && OneDecisionAsked(w)
  }

  // ---- Steps ----------------------------------------------------------------------------

  // A board operation changes the state of the revision it recommends or decides, and no other.
  lemma StatesAfter(board: E.Milestone, op: E.Op, d: nat, r: nat)
    requires Exists(board, d, r)
    ensures Exists(E.Step(board, op), d, r)
    ensures var s := StateOf(E.Step(board, op), d, r);
      if NewRecommendation(board, op) && op.id == d && op.revision == r then Recommended(s)
      else if NewDecision(board, op) && op.id == d && op.revision == r then Final(s)
      else s == StateOf(board, d, r)
  {
  }

  lemma NewRevisionIsOpen(board: E.Milestone, op: E.Op)
    requires NewRevision(board, op)
    ensures !Exists(board, op.id, |board.deliverables[op.id].revisions|)
    ensures Exists(E.Step(board, op), op.id, |board.deliverables[op.id].revisions|)
    ensures StateOf(E.Step(board, op), op.id, |board.deliverables[op.id].revisions|).Open?
  {
  }

  // A note stays in order when the state of its revision is the same, or when it is closed.
  lemma StillFits(board: E.Milestone, op: E.Op, n: Notification)
    requires Fits(board, n)
    requires n.active && n.target.RevisionTarget? && (NewRecommendation(board, op) || NewDecision(board, op)) ==>
      n.target != RevisionTarget(op.id, op.revision)
    ensures Fits(E.Step(board, op), n)
  {
    if n.active && n.target.RevisionTarget? {
      StatesAfter(board, op, n.target.deliverable, n.target.revision);
    }
  }

  // A review event leaves nothing open on its revision.
  lemma Closes(board: E.Milestone, n: Notification, target: Target, event: Event, now: int)
    requires Fits(board, n) && target.RevisionTarget? && Resolves(target, event)
    ensures Fits(board, Heard(n, target, event, now)) && !OpenOn(Heard(n, target, event, now), target)
    ensures n.target != target ==> Heard(n, target, event, now) == n
  {
  }

  ghost predicate Fitting(board: E.Milestone, notes: seq<Notification>) {
    forall i :: 0 <= i < |notes| ==> Fits(board, notes[i])
  }

  ghost predicate NoneOpenOn(notes: seq<Notification>, target: Target) {
    forall i :: 0 <= i < |notes| ==> !OpenOn(notes[i], target)
  }

  lemma EventFits(board: E.Milestone, op: E.Op, notes: seq<Notification>, event: Event, now: int)
    requires Fitting(board, notes) && (NewRecommendation(board, op) || NewDecision(board, op))
    requires event.DeliverableRecommended? || event.DeliverableDecided?
    ensures var target := RevisionTarget(op.id, op.revision);
      Fitting(E.Step(board, op), AfterEvent(notes, target, event, now)) && NoneOpenOn(AfterEvent(notes, target, event, now), target)
  {
    var target := RevisionTarget(op.id, op.revision);
    forall i | 0 <= i < |notes|
      ensures Fits(E.Step(board, op), Heard(notes[i], target, event, now)) && !OpenOn(Heard(notes[i], target, event, now), target)
    {
      Closes(board, notes[i], target, event, now);
      StillFits(board, op, Heard(notes[i], target, event, now));
    }
  }

  lemma StepFits(board: E.Milestone, op: E.Op, notes: seq<Notification>)
    requires Fitting(board, notes) && !NewRecommendation(board, op) && !NewDecision(board, op)
    ensures Fitting(E.Step(board, op), notes)
  {
    forall i | 0 <= i < |notes| ensures Fits(E.Step(board, op), notes[i]) {
      StillFits(board, op, notes[i]);
    }
  }

  predicate MayAsk(board: E.Milestone, target: Target, purpose: Purpose) {
    && target.RevisionTarget? && Exists(board, target.deliverable, target.revision)
    && var s := StateOf(board, target.deliverable, target.revision);
       !Final(s) && (Recommended(s) ==> purpose.AdvisorDecision?)
  }

  lemma AskFits(board: E.Milestone, notes: seq<Notification>, target: Target, recipient: int, purpose: Purpose, due: int)
    requires Fitting(board, notes) && MayAsk(board, target, purpose)
    ensures Fitting(board, Ask(notes, target, recipient, purpose, due))
  {
  }

  lemma {:induction false} AskReviewersFits(board: E.Milestone, notes: seq<Notification>, target: Target,
                                            reviewers: seq<int>, due: int)
    requires Fitting(board, notes) && forall p :: MayAsk(board, target, p)
    ensures Fitting(board, AskReviewers(notes, target, reviewers, due))
  {
    if reviewers != [] {
      var reviewer := reviewers[|reviewers| - 1];
      AskReviewersFits(board, notes, target, reviewers[..|reviewers| - 1], due);
      AskFits(board, AskReviewers(notes, target, reviewers[..|reviewers| - 1], due), target, reviewer, ReviewerAction(reviewer), due);
    }
  }

  lemma BoardMoveFits(w: World, m: Move)
    requires AllFit(w) && m.BoardMove?
    ensures AllFit(Next(w, m))
  {
    var after := E.Step(w.board, m.op);
    if NewRevision(w.board, m.op) {
      var target := RevisionTarget(m.op.id, |w.board.deliverables[m.op.id].revisions|);
      NewRevisionIsOpen(w.board, m.op);
      StepFits(w.board, m.op, w.notes);
      AskReviewersFits(after, w.notes, target, m.reviewers, m.due);
      AskFits(after, w.notes, target, m.advisor, AdvisorDecision, m.due);
    } else if NewRecommendation(w.board, m.op) {
      var target := RevisionTarget(m.op.id, m.op.revision);
      EventFits(w.board, m.op, w.notes, DeliverableRecommended, m.now);
      StatesAfter(w.board, m.op, m.op.id, m.op.revision);
      AskFits(after, AfterEvent(w.notes, target, DeliverableRecommended, m.now), target, m.advisor, AdvisorDecision, m.due);
    } else if NewDecision(w.board, m.op) {
      EventFits(w.board, m.op, w.notes, DeliverableDecided, m.now);
    } else {
      StepFits(w.board, m.op, w.notes);
    }
  }

  lemma NoteMoveFits(w: World, m: Move)
    requires AllFit(w) && m.NoteMove? && Allowed(m)
    ensures AllFit(Next(w, m))
  {
    StepKeepsSound(w.notes, m.note);
  }

  // ---- One decision asked for -----------------------------------------------------------

  // Notes are only closed or added, and none added is on the target.
  ghost predicate AddsNoneOn(notes: seq<Notification>, after: seq<Notification>, target: Target) {
    && |notes| <= |after|
    && (forall i :: 0 <= i < |notes| ==> after[i].target == notes[i].target && (after[i].active ==> notes[i].active))
    && (forall i :: |notes| <= i < |after| ==> !OpenOn(after[i], target))
  }

  lemma AskedOnceKept(notes: seq<Notification>, after: seq<Notification>, target: Target)
    requires AskedOnce(notes, target) && AddsNoneOn(notes, after, target)
    ensures AskedOnce(after, target)
  {
  }

  lemma {:induction false} AskReviewersAddsNone(notes: seq<Notification>, asked: Target, reviewers: seq<int>, due: int, target: Target)
    requires asked != target
    ensures AddsNoneOn(notes, AskReviewers(notes, asked, reviewers, due), target)
  {
    if reviewers != [] {
      AskReviewersAddsNone(notes, asked, reviewers[..|reviewers| - 1], due, target);
    }
  }

  // The hooks of an operation leave other revisions alone.
  lemma HooksAddNone(w: World, m: Move, target: Target)
    requires AllFit(w) && m.BoardMove?
    requires NewRevision(w.board, m.op) ==> target != RevisionTarget(m.op.id, |w.board.deliverables[m.op.id].revisions|)
    requires NewRecommendation(w.board, m.op) ==> target != RevisionTarget(m.op.id, m.op.revision)
    ensures AddsNoneOn(w.notes, Hooks(w, m), target)
  {
    if NewRevision(w.board, m.op) {
      AskReviewersAddsNone(w.notes, RevisionTarget(m.op.id, |w.board.deliverables[m.op.id].revisions|), m.reviewers, m.due, target);
    }
  }

  // Recommending leaves exactly one follow-up open on the revision: the advisor's decision.
  lemma RecommendationAsksOnce(w: World, m: Move)
    requires AllFit(w) && m.BoardMove? && NewRecommendation(w.board, m.op)
    ensures var target, notes := RevisionTarget(m.op.id, m.op.revision), Next(w, m).notes;
      && |notes| == |w.notes| + 1
      && (forall i :: 0 <= i < |notes| ==> (OpenOn(notes[i], target) <==> i == |w.notes|))
      && OpenWith(notes[|w.notes|], m.advisor, Key(target, AdvisorDecision)) && notes[|w.notes|].outcome.Pending?
      && notes[|w.notes|].requirement.Action? && notes[|w.notes|].dueAt == Some(m.due)
      && (forall i :: 0 <= i < |w.notes| && OpenOn(w.notes[i], target) ==>
           notes[i].outcome.Completed? && notes[i].completion == Some(DeliverableRecommended) && notes[i].completedAt == Some(m.now))
    ensures AskedOnce(Next(w, m).notes, RevisionTarget(m.op.id, m.op.revision))
  {
    var target := RevisionTarget(m.op.id, m.op.revision);
    var heard := AfterEvent(w.notes, target, DeliverableRecommended, m.now);
    EventFits(w.board, m.op, w.notes, DeliverableRecommended, m.now);
    forall i | 0 <= i < |heard| ensures !OpenWith(heard[i], m.advisor, Key(target, AdvisorDecision)) {
      assert Fits(E.Step(w.board, m.op), heard[i]) && !OpenOn(heard[i], target);
    }
  }

  // A follow-up that asks one person for an action on the revision.
  predicate Asks(n: Notification, target: Target, recipient: int, purpose: Purpose, due: int) {
    && OpenOn(n, target) && n.requirement.Action? && n.outcome.Pending?
    && n.recipient == recipient && n.key == Key(target, purpose) && n.dueAt == Some(due)
  }

  // The notes from n on ask each of the reviewers once, and nobody else.
  ghost predicate AsksEach(notes: seq<Notification>, n: nat, target: Target, reviewers: seq<int>, due: int)
    requires n <= |notes|
  {
    && (forall i :: n <= i < |notes| ==>
         notes[i].recipient in reviewers && Asks(notes[i], target, notes[i].recipient, ReviewerAction(notes[i].recipient), due))
    && (forall r :: r in reviewers ==> exists i :: n <= i < |notes| && notes[i].recipient == r)
    && (forall i, j :: n <= i < j < |notes| ==> notes[i].recipient != notes[j].recipient)
  }

  lemma {:induction false} ReviewersAskedEach(notes: seq<Notification>, target: Target, reviewers: seq<int>, due: int)
    requires forall i, purpose :: 0 <= i < |notes| && notes[i].active ==> notes[i].key != Key(target, purpose)
    ensures var after := AskReviewers(notes, target, reviewers, due);
      && |notes| <= |after| && after[..|notes|] == notes && AsksEach(after, |notes|, target, reviewers, due)
  {
    if reviewers != [] {
      var n := |reviewers| - 1;
      var before, r := AskReviewers(notes, target, reviewers[..n], due), reviewers[n];
      ReviewersAskedEach(notes, target, reviewers[..n], due);
      assert reviewers == reviewers[..n] + [r];
      assert forall i :: 0 <= i < |notes| ==> before[i] == notes[i];
      if r in reviewers[..n] {
        var i :| |notes| <= i < |before| && before[i].recipient == r;
        assert OpenWith(before[i], r, Key(target, ReviewerAction(r)));
      } else {
        forall i | 0 <= i < |before| ensures !OpenWith(before[i], r, Key(target, ReviewerAction(r))) {}
      }
      AskedEachNext(notes, before, target, reviewers, due);
    }
  }

  lemma AskedEachNext(notes: seq<Notification>, before: seq<Notification>, target: Target, reviewers: seq<int>, due: int)
    requires reviewers != [] && |notes| <= |before| && before[..|notes|] == notes
    requires AsksEach(before, |notes|, target, reviewers[..|reviewers| - 1], due)
    requires var r := reviewers[|reviewers| - 1];
      HasOpen(before, r, Key(target, ReviewerAction(r))) <==> r in reviewers[..|reviewers| - 1]
    ensures var r := reviewers[|reviewers| - 1];
      var after := Ask(before, target, r, ReviewerAction(r), due);
      && |notes| <= |after| && after[..|notes|] == notes && AsksEach(after, |notes|, target, reviewers, due)
  {
    var n, r := |reviewers| - 1, reviewers[|reviewers| - 1];
    var after := Ask(before, target, r, ReviewerAction(r), due);
    assert reviewers == reviewers[..n] + [r];
    forall q | q in reviewers ensures exists i :: |notes| <= i < |after| && after[i].recipient == q {
      if q in reviewers[..n] {
        var i :| |notes| <= i < |before| && before[i].recipient == q;
        assert after[i] == before[i];
      } else {
        assert after[|before|].recipient == q;
      }
    }
  }

  // Submitting asks everyone designated to review for a review of the new revision, once each, or the
  // advisor for a decision if nobody is.
  lemma SubmissionAsksEveryone(w: World, m: Move)
    requires AllFit(w) && m.BoardMove? && NewRevision(w.board, m.op)
    ensures var target, notes := RevisionTarget(m.op.id, |w.board.deliverables[m.op.id].revisions|), Next(w, m).notes;
      && |w.notes| <= |notes| && notes[..|w.notes|] == w.notes
      && if m.reviewers != [] then AsksEach(notes, |w.notes|, target, m.reviewers, m.due)
         else |notes| == |w.notes| + 1 && Asks(notes[|w.notes|], target, m.advisor, AdvisorDecision, m.due)
  {
    var target := RevisionTarget(m.op.id, |w.board.deliverables[m.op.id].revisions|);
    forall i, purpose | 0 <= i < |w.notes| && w.notes[i].active ensures w.notes[i].key != Key(target, purpose) {
      assert Fits(w.board, w.notes[i]);
    }
    ReviewersAskedEach(w.notes, target, m.reviewers, m.due);
  }

  lemma BoardMoveAsksOnce(w: World, m: Move)
    requires Coherent(w) && m.BoardMove?
    ensures OneDecisionAsked(Next(w, m))
  {
    var after := Next(w, m);
    forall d: nat, r: nat | Exists(after.board, d, r) && Recommended(StateOf(after.board, d, r))
      ensures AskedOnce(after.notes, RevisionTarget(d, r))
    {
      if NewRecommendation(w.board, m.op) && d == m.op.id && r == m.op.revision {
        RecommendationAsksOnce(w, m);
      } else {
        WasRecommended(w.board, m.op, d, r);
        HooksAddNone(w, m, RevisionTarget(d, r));
        AskedOnceKept(w.notes, after.notes, RevisionTarget(d, r));
      }
    }
  }

  lemma WasRecommended(board: E.Milestone, op: E.Op, d: nat, r: nat)
    requires Exists(E.Step(board, op), d, r) && Recommended(StateOf(E.Step(board, op), d, r))
    requires !(NewRecommendation(board, op) && d == op.id && r == op.revision)
    ensures Exists(board, d, r) && Recommended(StateOf(board, d, r))
  {
    if Exists(board, d, r) {
      StatesAfter(board, op, d, r);
    } else {
      AddedIsOpen(board, op, d, r);
    }
  }

  // Revisions come into being open.
  lemma AddedIsOpen(board: E.Milestone, op: E.Op, d: nat, r: nat)
    requires !Exists(board, d, r) && Exists(E.Step(board, op), d, r)
    ensures NewRevision(board, op) && StateOf(E.Step(board, op), d, r).Open?
  {
  }

  lemma NoteMoveAsksOnce(w: World, m: Move)
    requires Coherent(w) && m.NoteMove? && Allowed(m)
    ensures OneDecisionAsked(Next(w, m))
  {
    var after := Next(w, m);
    StepKeepsSound(w.notes, m.note);
    forall d: nat, r: nat | Exists(after.board, d, r) && Recommended(StateOf(after.board, d, r))
      ensures AskedOnce(after.notes, RevisionTarget(d, r))
    {
      assert AddsNoneOn(w.notes, after.notes, RevisionTarget(d, r));
      AskedOnceKept(w.notes, after.notes, RevisionTarget(d, r));
    }
  }

  // ---- Every run ------------------------------------------------------------------------

  ghost predicate AllAllowed(moves: seq<Move>) {
    forall i :: 0 <= i < |moves| ==> Allowed(moves[i])
  }

  lemma {:induction false} RunsAreCoherent(w: World, moves: seq<Move>)
    requires Coherent(w) && AllAllowed(moves)
    ensures Coherent(RunWorld(w, moves))
  {
    if moves != [] {
      var before, m := RunWorld(w, moves[..|moves| - 1]), moves[|moves| - 1];
      RunsAreCoherent(w, moves[..|moves| - 1]);
      if m.BoardMove? {
        BoardMoveFits(before, m);
        BoardMoveAsksOnce(before, m);
      } else {
        NoteMoveFits(before, m);
        NoteMoveAsksOnce(before, m);
      }
    }
  }

  // ---- Records instead of states --------------------------------------------------------

  predicate Decided(board: E.Milestone, d: nat, r: nat)
    requires Exists(board, d, r)
  {
    board.deliverables[d].revisions[r].decision.Some?
  }

  // Somebody's recommendation stands.
  predicate Advised(board: E.Milestone, d: nat, r: nat)
    requires Exists(board, d, r)
  {
    board.deliverables[d].revisions[r].recommendations != map[]
  }

  // A revision is open until it is recommended or decided, and a final state means a decision.
  predicate StateTracks(board: E.Milestone, d: nat, r: nat)
    requires Exists(board, d, r)
  {
    && (StateOf(board, d, r).Open? <==> !Advised(board, d, r) && !Decided(board, d, r))
    && (Final(StateOf(board, d, r)) ==> Decided(board, d, r))
  }

  ghost predicate StatesTrack(board: E.Milestone) {
    forall d: nat, r: nat :: Exists(board, d, r) ==> StateTracks(board, d, r)
  }

  // Revisions come into being without any record.
  lemma AddedIsBlank(board: E.Milestone, op: E.Op, d: nat, r: nat)
    requires !Exists(board, d, r) && Exists(E.Step(board, op), d, r)
    ensures !Decided(E.Step(board, op), d, r) && !Advised(E.Step(board, op), d, r)
  {
  }

  // What a board operation leaves of a revision's records.
  lemma RecordsAfter(board: E.Milestone, op: E.Op, d: nat, r: nat)
    requires Exists(board, d, r)
    ensures Exists(E.Step(board, op), d, r)
    ensures Decided(E.Step(board, op), d, r) <==> Decided(board, d, r) || (NewDecision(board, op) && op.id == d && op.revision == r)
    ensures Advised(E.Step(board, op), d, r) <==> Advised(board, d, r) || (NewRecommendation(board, op) && op.id == d && op.revision == r)
  {
    if NewRecommendation(board, op) && op.id == d && op.revision == r {
      assert op.reviewer in E.Step(board, op).deliverables[d].revisions[r].recommendations;
    }
  }

  lemma StepTracks(board: E.Milestone, op: E.Op, d: nat, r: nat)
    requires Exists(E.Step(board, op), d, r)
    requires Exists(board, d, r) ==> StateTracks(board, d, r)
    ensures StateTracks(E.Step(board, op), d, r)
  {
    if !Exists(board, d, r) {
      AddedIsOpen(board, op, d, r);
      AddedIsBlank(board, op, d, r);
    } else {
      StatesAfter(board, op, d, r);
      RecordsAfter(board, op, d, r);
    }
  }

  lemma {:induction false} RunsTrack(w: World, moves: seq<Move>)
    requires StatesTrack(w.board)
    ensures StatesTrack(RunWorld(w, moves).board)
  {
    if moves != [] {
      var before, m := RunWorld(w, moves[..|moves| - 1]), moves[|moves| - 1];
      RunsTrack(w, moves[..|moves| - 1]);
      forall d: nat, r: nat | Exists(RunWorld(w, moves).board, d, r) ensures StateTracks(RunWorld(w, moves).board, d, r) {
        if m.BoardMove? {
          StepTracks(before.board, m.op, d, r);
        }
      }
    }
  }

  // Move number k of the run recommends a revision that was decided by then.
  ghost predicate RecommendedLate(w: World, moves: seq<Move>, d: nat, r: nat, k: nat) {
    && k < |moves| && moves[k].BoardMove? && NewRecommendation(RunWorld(w, moves[..k]).board, moves[k].op)
    && moves[k].op.id == d && moves[k].op.revision == r
    && Exists(RunWorld(w, moves[..k]).board, d, r) && Decided(RunWorld(w, moves[..k]).board, d, r)
  }

  lemma LateInLonger(w: World, moves: seq<Move>, d: nat, r: nat, k: nat)
    requires moves != [] && RecommendedLate(w, moves[..|moves| - 1], d, r, k)
    ensures RecommendedLate(w, moves, d, r, k)
  {
    assert moves[..|moves| - 1][..k] == moves[..k] && moves[..|moves| - 1][k] == moves[k];
  }

  // A step leaves a decided revision without a final state only by recommending it after the decision,
  // or if it was so before.
  lemma StepFromFinal(board: E.Milestone, op: E.Op, d: nat, r: nat)
    requires Exists(E.Step(board, op), d, r) && Decided(E.Step(board, op), d, r) && !Final(StateOf(E.Step(board, op), d, r))
    ensures Exists(board, d, r) && Decided(board, d, r)
    ensures (NewRecommendation(board, op) && op.id == d && op.revision == r) || !Final(StateOf(board, d, r))
  {
    if Exists(board, d, r) {
      StatesAfter(board, op, d, r);
    } else {
      AddedIsBlank(board, op, d, r);
    }
  }

  // A decided revision whose state is not final has been recommended since it was decided.
  lemma {:induction false} NotFinalMeansLate(w: World, moves: seq<Move>, d: nat, r: nat) returns (k: nat)
    requires !Exists(w.board, d, r)
    requires Exists(RunWorld(w, moves).board, d, r) && Decided(RunWorld(w, moves).board, d, r)
    requires !Final(StateOf(RunWorld(w, moves).board, d, r))
    ensures RecommendedLate(w, moves, d, r, k)
  {
    var n := |moves| - 1;
    var before, m := RunWorld(w, moves[..n]), moves[n];
    if m.BoardMove? {
      StepFromFinal(before.board, m.op, d, r);
    }
    if m.BoardMove? && NewRecommendation(before.board, m.op) && m.op.id == d && m.op.revision == r {
      k := n;
    } else {
      k := NotFinalMeansLate(w, moves[..n], d, r);
      LateInLonger(w, moves, d, r, k);
    }
  }

  // In every world reached so, by the records: an open follow-up on a decided revision means that
  // somebody recommended the revision after the decision; and as soon as a recommendation or a
  // decision stands there is at most one open follow-up, for the advisor's decision.
  lemma FollowUpsMatchReview(target: int, keys: set<string>, moves: seq<Move>, d: nat, r: nat, i: nat)
    requires AllAllowed(moves)
    requires var w := RunWorld(World(E.NewMilestone(target, keys), []), moves);
      Exists(w.board, d, r) && i < |w.notes| && OpenOn(w.notes[i], RevisionTarget(d, r))
    ensures var start := World(E.NewMilestone(target, keys), []);
      var w := RunWorld(start, moves);
      && w.notes[i].outcome.Pending?
      && (Decided(w.board, d, r) ==> exists k :: RecommendedLate(start, moves, d, r, k))
      && (Advised(w.board, d, r) || Decided(w.board, d, r) ==>
           && w.notes[i].key == Key(RevisionTarget(d, r), AdvisorDecision)
           && forall j :: 0 <= j < |w.notes| && OpenOn(w.notes[j], RevisionTarget(d, r)) ==> j == i)
  {
    var start := World(E.NewMilestone(target, keys), []);
    var w := RunWorld(start, moves);
    RunsAreCoherent(start, moves);
    RunsTrack(start, moves);
    assert Fits(w.board, w.notes[i]) && StateTracks(w.board, d, r);
    if Decided(w.board, d, r) {
      var k := NotFinalMeansLate(start, moves, d, r);
    }
  }

  // A recommendation after the final decision asks the advisor to decide again, and deciding again
  // does not close that follow-up: the earlier decision is returned and no event is recorded.
  lemma LateRecommendationStaysOpen(w: World, late: Move, again: Move)
    requires Coherent(w) && late.BoardMove? && NewRecommendation(w.board, late.op)
    requires w.board.deliverables[late.op.id].revisions[late.op.revision].decision.Some?
    requires again.BoardMove? && again.op.DecideOp? && again.op.id == late.op.id && again.op.revision == late.op.revision
    ensures Next(Next(w, late), again) == Next(w, late)
    ensures OpenOn(Next(w, late).notes[|w.notes|], RevisionTarget(late.op.id, late.op.revision))
  {
    RecommendationAsksOnce(w, late);
  }

  predicate RecommendsOn(m: Move, d: nat, r: nat) {
    m.BoardMove? && m.op.RecommendOp? && m.op.id == d && m.op.revision == r
  }

  // The first decision closes everything open on its revision, and nothing opens there again
  // unless somebody recommends it later.
  lemma {:induction false} DecisionClosesForGood(w: World, m: Move, moves: seq<Move>)
    requires Coherent(w) && m.BoardMove? && NewDecision(w.board, m.op) && AllAllowed(moves) && Allowed(m)
    requires forall i :: 0 <= i < |moves| ==> !RecommendsOn(moves[i], m.op.id, m.op.revision)
    ensures var after := RunWorld(Next(w, m), moves);
      && Coherent(after) && Exists(after.board, m.op.id, m.op.revision) && Final(StateOf(after.board, m.op.id, m.op.revision))
      && NoneOpenOn(after.notes, RevisionTarget(m.op.id, m.op.revision))
  {
    if moves == [] {
      BoardMoveFits(w, m);
      BoardMoveAsksOnce(w, m);
      StatesAfter(w.board, m.op, m.op.id, m.op.revision);
    } else {
      var before, last := RunWorld(Next(w, m), moves[..|moves| - 1]), moves[|moves| - 1];
      DecisionClosesForGood(w, m, moves[..|moves| - 1]);
      RunsAreCoherent(before, [last]);
      assert RunWorld(before, [last]) == Next(before, last);
      if last.BoardMove? {
        StatesAfter(before.board, last.op, m.op.id, m.op.revision);
      }
    }
    assert forall i :: 0 <= i < |RunWorld(Next(w, m), moves).notes| ==>
      Fits(RunWorld(Next(w, m), moves).board, RunWorld(Next(w, m), moves).notes[i]);
  }
}
