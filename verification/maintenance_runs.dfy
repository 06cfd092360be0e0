// Availability over runs of maintenance work: an item in use never hides an open fault or
// running repair, retirement is final, and reconciliation clears what has fallen due.
module MaintenanceRuns {
  import opened Results
  import opened Sums
  import opened ResourceItems
  import opened BookingRuns
  import StockRuns

  // An offline record that is being worked on, or an open fault.
  predicate HardOutage(m: Maintenance) {
    m.takesOffline && (m.status.InProgress? || (m.status.Scheduled? && m.kind.Fault?))
  }

  ghost predicate NoHiddenOutage(item: Item) {
    item.status.Available? ==> forall i :: 0 <= i < |item.maintenance| ==> !HardOutage(item.maintenance[i])
  }

  // Calls other than a manual status edit.
  predicate NotManual(op: Op) {
    op.OpUpdateItem? ==> op.change.status.None?
  }

  lemma NoOutageElsewhere(records: seq<Maintenance>, id: nat, now: int)
    requires id < |records| && !AnyOutage(Without(records, id), now)
    ensures forall i :: 0 <= i < |records| && i != id ==> !OutageNow(records[i], now)
  {
    forall i | 0 <= i < |records| && i != id ensures !OutageNow(records[i], now) {
      var k := if i < id then i else i - 1;
      assert Without(records, id)[k] == records[i];
    }
  }

  lemma StepKeepsOutages(item: Item, op: Op)
    requires NoHiddenOutage(item) && NotManual(op)
    ensures NoHiddenOutage(Step(item, op))
    ensures item.status.Retired? ==> Step(item, op).status.Retired?
  {
    if op.OpTransitionMaintenance? && Apply(item, op).Ok? && !AnyOutage(Without(item.maintenance, op.id), op.now) {
      NoOutageElsewhere(item.maintenance, op.id, op.now);
    }
  }

  // No available resource has an in-progress or open-fault offline record, and retirement is
  // never undone, in any run without manual status edits.
  lemma {:induction false} OutagesNeverHidden(item: Item, ops: seq<Op>)
    requires Created(item) && forall k :: 0 <= k < |ops| ==> NotManual(ops[k])
    ensures NoHiddenOutage(Run(item, ops))
    ensures item.status.Retired? ==> Run(item, ops).status.Retired?
  {
    if ops != [] {
      OutagesNeverHidden(item, ops[..|ops| - 1]);
      StepKeepsOutages(Run(item, ops[..|ops| - 1]), ops[|ops| - 1]);
    }
  }

  // A manual edit breaks the rule exactly when it declares an item with such a record available.
  lemma ManualEditKeepsOutagesIff(item: Item, actor: Actor, change: ItemChange)
    requires NoHiddenOutage(item) && UpdateItem(item, actor, change).Ok?
    ensures NoHiddenOutage(UpdateItem(item, actor, change).value) <==>
      !(change.status == Some(Status.Available) && exists i :: 0 <= i < |item.maintenance| && HardOutage(item.maintenance[i]))
  {
  }

  // It happens: equipment is created, an open offline fault takes it out of use, and a manager sets it
  // to available again by hand while the fault stays open.
  lemma ManualEditHidesOutage()
    ensures exists item: Item, ops: seq<Op>, actor: Actor, change: ItemChange ::
      && Created(item) && NoHiddenOutage(Run(item, ops)) && UpdateItem(Run(item, ops), actor, change).Ok?
      && !NoHiddenOutage(UpdateItem(Run(item, ops), actor, change).value)
  {
    var boss := Actor(1, Manager, true);
    var item := Item(Equipment, Status.Available, 1, 1, 0, 0, None, None, [], [], 0, [], []);
    assert CreateItem(boss, Equipment, Status.Available, 1, 0, 0, None, None) == Ok(item);
    var start := OpCreateMaintenance(boss, 9, Fault, 9, None, true);
    var broken := Step(item, start);
    assert [start][..0] == [];
    assert Run(item, [start]) == broken;
    assert !broken.status.Available? && HardOutage(broken.maintenance[0]);
    var change := ItemChange(Some(broken.version), None, Some(Status.Available), None, None, None, None);
    assert UpdateItem(broken, boss, change).Ok?;
    ManualEditKeepsOutagesIff(broken, boss, change);
  }

  // Right after reconciliation no available equipment has an outage now or a calibration due.
  lemma ReconciledIsUsable(item: Item, now: int, today: int)
    ensures ReconcileOperations(item, now, today).Ok?
    ensures var after := ReconcileOperations(item, now, today).value;
      after.kind.Equipment? && after.status.Available? ==>
        !AnyOutage(after.maintenance, now) && !CalibrationOverdue(after, today)
    ensures var after := ReconcileOperations(item, now, today).value;
      after.status != item.status <==>
        && item.kind.Equipment? && item.status.Available?
        && (AnyOutage(item.maintenance, now) || CalibrationOverdue(item, today))
    ensures var after := ReconcileOperations(item, now, today).value;
      ReconcileOperations(after, now, today).value == after
  {
  }

  // ---- Records --------------------------------------------------------------------------

  predicate ClosedRecord(m: Maintenance) { m.status.Completed? || m.status.Cancelled? }

  predicate SamePlan(a: Maintenance, b: Maintenance) {
    a.kind == b.kind && a.scheduledAt == b.scheduledAt && a.dueAt == b.dueAt && a.takesOffline == b.takesOffline
  }

  // Records are never deleted or replanned, none goes back to scheduled, and a closed one stays
  // as it is.
  lemma {:induction false} RecordsStay(item: Item, ops: seq<Op>, i: nat)
    requires i < |item.maintenance|
    ensures i < |Run(item, ops).maintenance|
    ensures var before, after := item.maintenance[i], Run(item, ops).maintenance[i];
      && SamePlan(before, after)
      && (after.status.Scheduled? ==> before.status.Scheduled?)
      && (ClosedRecord(before) ==> after == before)
  {
    if ops != [] {
      RecordsStay(item, ops[..|ops| - 1], i);
    }
  }

  // ---- Calibration ----------------------------------------------------------------------

  // Whether a transition that is accepted leaves the resource available: completing any record, and
  // cancelling one that takes the resource offline, reopens it if nothing else keeps it out of use
  // now and it is not retired; starting one that takes it offline closes it.
  predicate OpenAfter(item: Item, m: Maintenance, requested: MaintenanceStatus, elsewhere: bool) {
    var reopens := requested.Completed? || (requested.Cancelled? && m.takesOffline);
    || (item.status.Available? && !(requested.InProgress? && m.takesOffline))
    || (reopens && !item.status.Retired? && !elsewhere)
  }

  // Only completing a calibration of a resource with a calibration interval sets the next date.
  predicate Recalibrates(item: Item, m: Maintenance, requested: MaintenanceStatus) {
    requested.Completed? && m.kind.Calibration? && item.calibrationInterval.Some? && item.calibrationInterval.value != 0
  }

  // Intervals are never negative, on any run.
  predicate IntervalOk(item: Item) {
    item.calibrationInterval.Some? ==> item.calibrationInterval.value >= 0
  }

  lemma {:induction false} IntervalsStayOk(item: Item, ops: seq<Op>)
    requires Created(item)
    ensures IntervalOk(Run(item, ops))
  {
    if ops != [] {
      IntervalsStayOk(item, ops[..|ops| - 1]);
      StepKeepsInterval(Run(item, ops[..|ops| - 1]), ops[|ops| - 1]);
    }
  }

  lemma StepKeepsInterval(item: Item, op: Op)
    requires IntervalOk(item)
    ensures IntervalOk(Step(item, op))
  {
  }

  lemma TransitionEffect(item: Item, op: Op)
    requires op.OpTransitionMaintenance? && Apply(item, op).Ok? && IntervalOk(item)
    ensures op.id < |item.maintenance|
    ensures var m := item.maintenance[op.id];
      && (Step(item, op).status.Available? <==>
           OpenAfter(item, m, op.newStatus, AnyOutage(Without(item.maintenance, op.id), op.now)))
      && (CalibrationOverdue(Step(item, op), op.today) <==>
           CalibrationOverdue(item, op.today) && !Recalibrates(item, m, op.newStatus))
  {
  }

  // In every reachable state, an accepted transition leaves equipment available with an overdue
  // calibration exactly when the calibration was overdue before, the transition does not record a
  // new one, and the resource was open or is reopened by completing or cancelling.
  lemma TransitionHidesCalibrationIff(item: Item, ops: seq<Op>, op: Op)
    requires Created(item) && op.OpTransitionMaintenance? && Apply(Run(item, ops), op).Ok?
    ensures op.id < |Run(item, ops).maintenance| && Step(Run(item, ops), op).kind.Equipment?
    ensures var before, after := Run(item, ops), Step(Run(item, ops), op);
      var m := before.maintenance[op.id];
      after.status.Available? && CalibrationOverdue(after, op.today) <==>
        && CalibrationOverdue(before, op.today) && !Recalibrates(before, m, op.newStatus)
        && OpenAfter(before, m, op.newStatus, AnyOutage(Without(before.maintenance, op.id), op.now))
  {
    IntervalsStayOk(item, ops);
    StockRuns.StockIsConserved(item, ops);
    TransitionEffect(Run(item, ops), op);
  }

  // Completing a calibration of a resource with an interval always clears it.
  lemma CalibratingClears(item: Item, ops: seq<Op>, op: Op)
    requires Created(item) && op.OpTransitionMaintenance? && Apply(Run(item, ops), op).Ok? && op.newStatus.Completed?
    requires op.id < |Run(item, ops).maintenance| && Run(item, ops).maintenance[op.id].kind.Calibration?
    requires Run(item, ops).calibrationInterval.Some? && Run(item, ops).calibrationInterval.value != 0
    ensures !CalibrationOverdue(Step(Run(item, ops), op), op.today)
  {
    IntervalsStayOk(item, ops);
    TransitionEffect(Run(item, ops), op);
  }

  // Both ways happen: equipment is created, taken offline by a repair when its calibration is
  // overdue, and the repair is completed, or cancelled. The next reconcile takes it out again.
  lemma TransitionsCanHideCalibration(end: MaintenanceStatus)
    requires end.Completed? || end.Cancelled?
    ensures exists item: Item, ops: seq<Op>, op: Op ::
      && Created(item) && op.OpTransitionMaintenance? && op.newStatus == end && Apply(Run(item, ops), op).Ok?
      && Run(item, ops).status.Unavailable?
      && Step(Run(item, ops), op).status.Available? && CalibrationOverdue(Step(Run(item, ops), op), op.today)
      && ReconcileOperations(Step(Run(item, ops), op), op.now, op.today).value.status.Unavailable?
  {
    var boss := Actor(1, Manager, true);
    var item := Item(Equipment, Status.Available, 1, 1, 0, 0, None, Some(3), [], [], 0, [], []);
    assert CreateItem(boss, Equipment, Status.Available, 1, 0, 0, None, Some(3)) == Ok(item);
    var start := OpCreateMaintenance(boss, 9, Repair, 9, None, true);
    var op := OpTransitionMaintenance(boss, 9, 5, 0, end);
    var broken := Step(item, start);
    assert [start][..0] == [];
    assert Run(item, [start]) == broken;
    assert broken.status.Unavailable? && broken.maintenance == [Maintenance(Repair, Scheduled, 9, None, true)];
    assert Without(broken.maintenance, 0) == [];
    TransitionEffect(broken, op);
    assert CalibrationOverdue(broken, op.today) && Apply(broken, op).Ok?;
    ReconciledIsUsable(Step(broken, op), op.now, op.today);
  }
}
