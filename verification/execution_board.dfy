// The deliverable services as they run on one locked milestone, whose columns and rows are updated
// in place (backend/apps/projects/execution_services.py). Each method commits or refuses exactly as
// the step functions of Execution say.
module ExecutionBoard {
  import opened Results
  import opened Numbering
  import opened Execution

  ghost predicate Follows(reply: Reply, refusal: Option<Refusal>, before: Milestone, after: Milestone) {
    match reply
    case Ok(committed) => refusal == None && after == committed
    case Err(reason) => refusal == Some(reason) && after == before
  }

  class Board {
    var status: MilestoneStatus
    var targetDate: int
    var completedAt: Option<int>
    var archivedAt: Option<int>
    var version: int
    var deliverables: seq<Deliverable>
    var decisionKeys: set<string>

    ghost function Snapshot(): Milestone
      reads this
    {
      Milestone(status, targetDate, completedAt, archivedAt, version, deliverables, decisionKeys)
    }

    constructor (m: Milestone)
      ensures Snapshot() == m
    {
      status, targetDate, completedAt, archivedAt := m.status, m.targetDate, m.completedAt, m.archivedAt;
      version, deliverables, decisionKeys := m.version, m.deliverables, m.decisionKeys;
    }

    // The status that the required, unarchived deliverables give.
    method StatusOfRequired(today: int) returns (derived: MilestoneStatus)
      requires archivedAt.None?
      ensures derived == Derived(Snapshot(), today)
    {
      var required, accepted, blocked, working := false, true, false, false;
      for i := 0 to |deliverables|
        invariant required <==> exists k :: 0 <= k < i && Counts(deliverables[k])
        invariant accepted <==> forall k :: 0 <= k < i && Counts(deliverables[k]) ==> deliverables[k].status.Accepted?
        invariant blocked <==> exists k :: 0 <= k < i && Counts(deliverables[k]) && deliverables[k].status.Blocked?
        invariant working <==> exists k :: 0 <= k < i && Counts(deliverables[k]) && Working(deliverables[k].status)
      {
        var d := deliverables[i];
        if d.required && d.archivedAt.None? {
          required := true;
          accepted := accepted && d.status.Accepted?;
          blocked := blocked || d.status.Blocked?;
          working := working || Working(d.status);
        }
      }
      if required && accepted { return MCompleted; }
      if blocked { return MBlocked; }
      if targetDate < today { return MOverdue; }
      derived := if working then MInProgress else MPlanned;
    }

    // reconcile_milestone
    method Reconcile(now: int, today: int)
      modifies this`status, this`completedAt, this`version
      ensures Snapshot() == Reconciled(old(Snapshot()), now, today)
    {
      var derived := MArchived;
      if archivedAt.None? {
        derived := StatusOfRequired(today);
      }
      var changed := status != derived;
      status := derived;
      if !status.MCompleted? {
        completedAt := None;
      } else if completedAt.None? {
        completedAt := Some(now);
      }
      if changed {
        version := version + 1;
      }
    }

    method NewDeliverable(required: bool, reviewerRequired: bool, hasReviewers: bool) returns (refusal: Option<Refusal>)
      modifies this`deliverables
      ensures Follows(Create(old(Snapshot()), required, reviewerRequired, hasReviewers), refusal, old(Snapshot()), Snapshot())
    {
      if archivedAt.Some? { return Some(MilestoneArchived); }
      if reviewerRequired && !hasReviewers { return Some(ReviewerRequired); }
      var highest := 0;
      for i := 0 to |deliverables|
        invariant highest == MaxNumber(deliverables[..i], OrderOf())
      {
        assert deliverables[..i + 1][..i] == deliverables[..i];
        if deliverables[i].order > highest {
          highest := deliverables[i].order;
        }
      }
      assert deliverables[..|deliverables|] == deliverables;
      var order := if highest == 0 then 0 else highest + 1;
      if OrderUsed(deliverables, order) { return Some(OrderTaken); }
      deliverables := deliverables + [Deliverable(Planned, required, reviewerRequired, "", 0, None, None, 1, [], None, None, order)];
      refusal := None;
    }

    static method EditProgress(before: Deliverable, c: Change) returns (reply: Result<Deliverable, Refusal>)
      ensures reply == Progressing(before, c)
    {
      var d := before;
      if c.progress.Some? || c.workStatus.Some? || c.blocker.Some? {
        if c.progress.Some? {
          if !(0 <= c.progress.value <= 100) { return Err(InvalidProgress); }
          d := d.(progress := c.progress.value);
        }
        if c.workStatus.Some? {
          if !IsWork(c.workStatus.value) { return Err(InvalidStatus); }
          d := d.(status := c.workStatus.value);
        }
        if c.blocker.Some? { d := d.(blocker := c.blocker.value); }
        if d.status.Blocked? && d.blocker == "" { return Err(BlockerRequired); }
      }
      reply := Ok(d);
    }

    // The edits of one deliverable, in the order update_deliverable makes them.
    static method EditDeliverable(before: Deliverable, c: Change) returns (reply: Result<Deliverable, Refusal>)
      ensures reply == Edited(before, c)
    {
      var d := before;
      if d.version != c.expected { return Err(StaleVersion); }
      if c.required.Some? { d := d.(required := c.required.value); }
      if c.reviewerRequired.Some? { d := d.(reviewerRequired := c.reviewerRequired.value); }
      reply := EditProgress(d, c);
      if reply.Ok? {
        reply := Ok(reply.value.(version := reply.value.version + 1));
      }
    }

    method Change(id: nat, c: Change, now: int, today: int) returns (refusal: Option<Refusal>)
      modifies this
      ensures Follows(Update(old(Snapshot()), id, c, now, today), refusal, old(Snapshot()), Snapshot())
    {
      if id >= |deliverables| { return Some(NotFound); }
      var edited := EditDeliverable(deliverables[id], c);
      if edited.Err? { return Some(edited.error); }
      deliverables := deliverables[id := edited.value];
      Reconcile(now, today);
      refusal := None;
    }

    method SubmitRevision(id: nat, key: string, evidence: nat, hasReviewer: bool, now: int, today: int)
      returns (refusal: Option<Refusal>)
      modifies this
      ensures Follows(Submit(old(Snapshot()), id, key, evidence, hasReviewer, now, today), refusal, old(Snapshot()), Snapshot())
    {
      if id >= |deliverables| { return Some(NotFound); }
      var d := deliverables[id];
      if key != "" && RevisionKeyUsed(d.revisions, key) { return None; }
      if d.status.Accepted? || d.status.Archived? { return Some(NoNewRevision); }
      if evidence == 0 { return Some(EvidenceRequired); }
      if d.reviewerRequired && !hasReviewer { return Some(ReviewerRequired); }
      var number := NextNumber(d.revisions, NumberOf());
      d := d.(currentRevision := Some(|d.revisions|), revisions := d.revisions + [Revision(number, key, Open, map[], None)]);
      d := d.(status := if d.reviewerRequired then UnderReview else Submitted, version := d.version + 1);
      deliverables := deliverables[id := d];
      Reconcile(now, today);
      refusal := None;
    }

    method RecommendRevision(id: nat, r: nat, reviewer: int, verdict: Verdict, rationale: string)
      returns (refusal: Option<Refusal>)
      modifies this`deliverables
      ensures Follows(Recommend(old(Snapshot()), id, r, reviewer, verdict, rationale), refusal, old(Snapshot()), Snapshot())
    {
      if id >= |deliverables| || r >= |deliverables[id].revisions| { return Some(NotFound); }
      if rationale == "" { return Some(RationaleRequired); }
      var d := deliverables[id];
      var revision := d.revisions[r];
      revision := revision.(recommendations := revision.recommendations[reviewer := verdict]);
      revision := revision.(state := if verdict.Accept? then RecommendedAccept else RecommendedReturn);
      deliverables := deliverables[id := d.(revisions := d.revisions[r := revision])];
      refusal := None;
    }

    method DecideRevision(id: nat, r: nat, verdict: Verdict, rationale: string, key: string, now: int, today: int)
      returns (refusal: Option<Refusal>)
      modifies this
      ensures Follows(Decide(old(Snapshot()), id, r, verdict, rationale, key, now, today), refusal, old(Snapshot()), Snapshot())
    {
      if id >= |deliverables| || r >= |deliverables[id].revisions| { return Some(NotFound); }
      var d := deliverables[id];
      var revision := d.revisions[r];
      if revision.decision.Some? { return None; }
      if verdict.Return? && rationale == "" { return Some(RationaleRequired); }
      if d.reviewerRequired && revision.recommendations == map[] { return Some(RecommendationRequired); }
      if key != "" {
        if key in decisionKeys { return Some(KeyTaken); }
        decisionKeys := decisionKeys + {key};
      }
      revision := revision.(decision := Some(verdict));
      if verdict.Accept? {
        revision := revision.(state := FinallyAccepted);
        d := d.(status := Accepted, acceptedRevision := Some(r), acceptedAt := Some(now), progress := 100);
      } else {
        revision := revision.(state := FinallyReturned);
        d := d.(status := ChangesRequested, acceptedRevision := None, acceptedAt := None);
      }
      deliverables := deliverables[id := d.(revisions := d.revisions[r := revision], version := d.version + 1)];
      Reconcile(now, today);
      refusal := None;
    }

    method ArchiveDeliverable(id: nat, expected: int, now: int, today: int) returns (refusal: Option<Refusal>)
      modifies this
      ensures Follows(ArchiveOne(old(Snapshot()), id, expected, now, today), refusal, old(Snapshot()), Snapshot())
    {
      if id >= |deliverables| { return Some(NotFound); }
      var d := deliverables[id];
      if d.version != expected { return Some(StaleVersion); }
      if d.required && status.MCompleted? { return Some(MilestoneCompleted); }
      deliverables := deliverables[id := d.(status := Archived, archivedAt := Some(now), version := d.version + 1)];
      Reconcile(now, today);
      refusal := None;
    }

    method MoveTarget(expected: int, target: Option<int>, now: int, today: int) returns (refusal: Option<Refusal>)
      modifies this
      ensures Follows(UpdateMilestone(old(Snapshot()), expected, target, now, today), refusal, old(Snapshot()), Snapshot())
    {
      if version != expected { return Some(StaleVersion); }
      if archivedAt.Some? { return Some(MilestoneArchived); }
      if target.Some? { targetDate := target.value; }
      version := version + 1;
      Reconcile(now, today);
      refusal := None;
    }

    method Archive(expected: int, now: int) returns (refusal: Option<Refusal>)
      modifies this
      ensures Follows(ArchiveMilestone(old(Snapshot()), expected, now), refusal, old(Snapshot()), Snapshot())
    {
      if version != expected { return Some(StaleVersion); }
      status, archivedAt, completedAt, version := MArchived, Some(now), None, version + 1;
      for i := 0 to |deliverables|
        invariant unchanged(`targetDate) && unchanged(`decisionKeys)
        invariant status.MArchived? && archivedAt == Some(now) && completedAt.None? && version == old(version) + 1
        invariant |deliverables| == |old(deliverables)|
        invariant forall k :: 0 <= k < i ==> deliverables[k] == ArchivedWith(old(deliverables)[k], now)
        invariant forall k :: i <= k < |deliverables| ==> deliverables[k] == old(deliverables)[k]
      {
        var d := deliverables[i];
        if !d.status.Archived? {
          deliverables := deliverables[i := d.(status := Archived, archivedAt := Some(now), version := d.version + 1)];
        }
      }
      assert deliverables == ArchivedAll(old(deliverables), now);
      refusal := None;
    }
  }
}
