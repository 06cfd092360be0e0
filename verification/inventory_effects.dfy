// What the inventory, maintenance and stock calls accept and what they write
// (backend/apps/resources/services.py, lines 205-391, 500-760).
module InventoryEffects {
  import opened Results
  import opened Sums
  import opened Bookings
  import opened ResourceItems
  import opened Sweep

  // ---- Inventory ------------------------------------------------------------------------

  predicate Manages(actor: Actor) { actor.active && actor.role == Manager }

  // The fields an edit names take the values it gives, the others stay; a field that may be cleared is
  // cleared by naming it without a value.
  predicate Edits(before: Item, change: ItemChange, after: Item) {
    && (change.totalQuantity.Some? ==> after.totalQuantity == change.totalQuantity.value)
    && (change.totalQuantity.None? ==> after.totalQuantity == before.totalQuantity)
    && (change.status.Some? ==> after.status == change.status.value)
    && (change.status.None? ==> after.status == before.status)
    && (change.kind.Some? ==> after.kind == change.kind.value)
    && (change.kind.None? ==> after.kind == before.kind)
    && (change.reorderLevel.Some? ==> after.reorderLevel == change.reorderLevel.value)
    && (change.reorderLevel.None? ==> after.reorderLevel == before.reorderLevel)
    && (change.calibrationInterval.Some? ==> after.calibrationInterval == change.calibrationInterval.value)
    && (change.calibrationInterval.None? ==> after.calibrationInterval == before.calibrationInterval)
    && (change.nextCalibration.Some? ==> after.nextCalibration == change.nextCalibration.value)
    && (change.nextCalibration.None? ==> after.nextCalibration == before.nextCalibration)
  }

  // Nothing has been booked, used, maintained or moved in stock.
  predicate NoHistory(item: Item) {
    |item.bookings| == 0 && item.submissions == 0 && |item.maintenance| == 0 && |item.ledger| == 0
  }

  // An edit by a manager at the current version is stored exactly when the total it asks for is positive
  // and covers the live bookings at every instant, its kind changes nothing with a history, and the
  // record that results has a positive total, no negative level or interval, and no interval on stock.
  lemma EditsIff(item: Item, op: Op, edited: Item)
    requires op.OpUpdateItem? && AllStorable(item.bookings) && Edits(item, op.change, edited)
    requires edited.stockOnHand == item.stockOnHand
    ensures var c := op.change;
      Apply(item, op).Ok? <==>
      && Manages(op.actor) && c.version == Some(item.version)
      && (c.totalQuantity.Some? ==> forall t :: Count(item.bookings, t) <= c.totalQuantity.value)
      && (c.kind.Some? && c.kind.value != item.kind ==> NoHistory(item))
      && edited.totalQuantity >= 1 && edited.reorderLevel >= 0 && item.stockOnHand >= 0
      && (edited.calibrationInterval.Some? ==> edited.calibrationInterval.value >= 0)
      && (edited.calibrationInterval.Some? && edited.kind.Consumable? ==> edited.calibrationInterval.value == 0)
  {
    if op.change.totalQuantity.Some? {
      SafeMinimumIsLeast(item.bookings, op.change.totalQuantity.value);
    }
  }

  lemma EditIsRecorded(item: Item, op: Op)
    requires op.OpUpdateItem? && Apply(item, op).Ok?
    ensures var after := Step(item, op);
      && Edits(item, op.change, after) && after.version == item.version + 1
      && after.bookings == item.bookings && after.maintenance == item.maintenance && after.ledger == item.ledger
      && after.submissions == item.submissions && after.stockOnHand == item.stockOnHand
      && after.lowStockRounds == item.lowStockRounds
  {
  }

  // A total refused for its commitments names the least total that would have been accepted.
  lemma CommitmentReport(item: Item, op: Op, least: int, q: int)
    requires op.OpUpdateItem? && AllStorable(item.bookings) && Apply(item, op) == Err(QuantityCommitmentConflict(least))
    ensures q >= least <==> q >= 1 && forall t :: Count(item.bookings, t) <= q
  {
    SafeMinimumIsLeast(item.bookings, q);
  }

  // Managers retire; active students submit uses of equipment that is not retired.
  lemma RetiresAndUses(item: Item, op: Op)
    requires op.OpRetireItem? || op.OpSubmitUse?
    ensures Apply(item, op).Ok? <==>
      if op.OpRetireItem? then Manages(op.actor)
      else op.actor.active && op.actor.role == Student && item.kind == Equipment && item.status != Retired
    ensures Apply(item, op).Ok? ==>
      Step(item, op) == if op.OpRetireItem? then item.(status := Retired, version := item.version + 1)
                        else item.(submissions := item.submissions + 1)
  {
  }

  // A new resource has no history but the opening row of stocked goods, and goods created at or below
  // their reorder level raise the first alert.
  lemma CreationIsRecorded(actor: Actor, kind: Kind, status: Status, total: int, stock: int, reorder: int,
                           interval: Option<int>, next: Option<int>)
    ensures var reply := CreateItem(actor, kind, status, total, stock, reorder, interval, next);
      && (reply.Ok? <==>
           && Manages(actor) && total >= 1 && reorder >= 0 && stock >= 0
           && (interval.Some? ==> interval.value >= 0 && (kind.Consumable? ==> interval.value == 0)))
      && (reply.Ok? ==>
           var item := reply.value;
           && item.kind == kind && item.status == status && item.totalQuantity == total && item.version == 1
           && item.stockOnHand == stock && item.reorderLevel == reorder
           && item.calibrationInterval == interval && item.nextCalibration == next
           && item.bookings == [] && item.maintenance == [] && item.submissions == 0
           && item.ledger == (if kind.Consumable? && stock > 0 then [StockRow(Adjustment, stock, stock)] else [])
           && item.lowStockRounds == if kind.Consumable? && stock <= reorder then [|item.ledger|] else [])
  {
  }

  // ---- Maintenance ----------------------------------------------------------------------

  // A record is active now when it takes the resource offline, is open, and is a fault, under way, or due
  // to have started.
  predicate ActiveNow(m: Maintenance, now: int) {
    && m.takesOffline && !m.status.Completed? && !m.status.Cancelled?
    && (m.kind == Fault || m.status.InProgress? || m.scheduledAt <= now)
  }

  predicate OtherActive(item: Item, id: nat, now: int) {
    exists i :: 0 <= i < |item.maintenance| && i != id && ActiveNow(item.maintenance[i], now)
  }

  lemma OutageIsActive(item: Item, id: nat, now: int)
    requires id < |item.maintenance|
    ensures AnyOutage(Without(item.maintenance, id), now) <==> OtherActive(item, id, now)
    ensures AnyOutage(item.maintenance, now) <==> exists i :: 0 <= i < |item.maintenance| && ActiveNow(item.maintenance[i], now)
  {
    var others := Without(item.maintenance, id);
    if i :| 0 <= i < |others| && OutageNow(others[i], now) {
      var k := if i < id then i else i + 1;
      assert item.maintenance[k] == others[i] && ActiveNow(item.maintenance[k], now);
    }
    if i :| 0 <= i < |item.maintenance| && i != id && ActiveNow(item.maintenance[i], now) {
      var k := if i < id then i else i - 1;
      assert others[k] == item.maintenance[i] && OutageNow(others[k], now);
    }
    forall i | 0 <= i < |item.maintenance| ensures OutageNow(item.maintenance[i], now) <==> ActiveNow(item.maintenance[i], now) {}
  }

  // A manager opens a record of equipment that does not end before it starts. The record is scheduled,
  // and a resource that is not retired goes out of use at once when the record is active now.
  lemma OpeningIsRecorded(item: Item, op: Op)
    requires op.OpCreateMaintenance?
    ensures Apply(item, op).Ok? <==>
      Manages(op.actor) && item.kind == Equipment && (op.dueAt.Some? ==> op.scheduledAt <= op.dueAt.value)
    ensures Apply(item, op).Ok? ==>
      var m := Maintenance(op.maintenanceKind, Scheduled, op.scheduledAt, op.dueAt, op.takesOffline);
      var recorded := item.(maintenance := item.maintenance + [m]);
      Step(item, op) == if ActiveNow(m, op.now) && item.status != Retired
                        then recorded.(status := Unavailable, version := item.version + 1) else recorded
  {
  }

  // A manager moves an open record on, never back to scheduled.
  lemma MovesIff(item: Item, op: Op)
    requires op.OpTransitionMaintenance? && op.id < |item.maintenance|
    ensures Apply(item, op).Ok? <==>
      && Manages(op.actor) && !op.newStatus.Scheduled?
      && !item.maintenance[op.id].status.Completed? && !item.maintenance[op.id].status.Cancelled?
  {
  }

  // Starting work takes a resource that is not retired out of use, if the record does. Ending it makes
  // such a resource available unless another record is active; a cancelled record must have taken it
  // offline for that. Completing a calibration sets the next one an interval of days ahead.
  lemma MoveIsRecorded(item: Item, op: Op)
    requires op.OpTransitionMaintenance? && Apply(item, op).Ok?
    ensures op.id < |item.maintenance|
    ensures var after, m := Step(item, op), item.maintenance[op.id];
      var reopens := item.status != Retired && !OtherActive(item, op.id, op.now);
      && after.maintenance == item.maintenance[op.id := m.(status := op.newStatus)]
      && (op.newStatus.InProgress? ==>
           && after.nextCalibration == item.nextCalibration
           && (if m.takesOffline && item.status != Retired
               then after.status == Unavailable && after.version == item.version + 1
               else after.status == item.status && after.version == item.version))
      && (op.newStatus.Cancelled? ==>
           && after.nextCalibration == item.nextCalibration
           && (if m.takesOffline && reopens
               then after.status == Status.Available && after.version == item.version + 1
               else after.status == item.status && after.version == item.version))
      && (op.newStatus.Completed? ==>
           && after.version == item.version + 1
           && after.status == (if reopens then Status.Available else item.status)
           && after.nextCalibration == if m.kind == Calibration && item.calibrationInterval.Some? && item.calibrationInterval.value != 0
                                       then Some(op.today + item.calibrationInterval.value) else item.nextCalibration)
      && after.(maintenance := item.maintenance, nextCalibration := item.nextCalibration, status := item.status,
                version := item.version) == item
  {
    OutageIsActive(item, op.id, op.now);
  }

  // The reconcile job takes available equipment out of use for an active record, an overdue calibration
  // or both, one version later, and leaves everything else alone.
  lemma ReconcileIsRecorded(item: Item, op: Op)
    requires op.OpReconcileOperations?
    ensures Step(item, op) ==
      if item.kind == Equipment && item.status == Status.Available
         && ((exists i :: 0 <= i < |item.maintenance| && ActiveNow(item.maintenance[i], op.now))
             || (item.nextCalibration.Some? && item.nextCalibration.value <= op.today))
      then item.(status := Unavailable, version := item.version + 1) else item
  {
    forall i | 0 <= i < |item.maintenance|
      ensures OutageNow(item.maintenance[i], op.now) <==> ActiveNow(item.maintenance[i], op.now)
    {
    }
  }

  // ---- Stock ----------------------------------------------------------------------------

  // A manager moves the stock of a consumable by an amount that is not zero, adds with a receipt, takes
  // with an issue, either way with an adjustment, and never takes more than there is.
  lemma StocksIff(item: Item, op: Op)
    requires op.OpRecordStock?
    ensures Apply(item, op).Ok? <==>
      && Manages(op.actor) && item.kind == Consumable && item.stockOnHand + op.delta >= 0
      && match op.stockKind
         case Receipt => op.delta > 0
         case Issue => op.delta < 0
         case Adjustment => op.delta != 0
  {
  }

  // The new row and the stock after it; an alert goes out when the stock falls from above the reorder
  // level to it or below.
  lemma StockIsRecorded(item: Item, op: Op)
    requires op.OpRecordStock? && Apply(item, op).Ok?
    ensures var after, left := Step(item, op), item.stockOnHand + op.delta;
      && after.stockOnHand == left && after.version == item.version + 1
      && after.ledger == item.ledger + [StockRow(op.stockKind, op.delta, left)]
      && after.lowStockRounds == (if item.stockOnHand > item.reorderLevel >= left
                                  then item.lowStockRounds + [|item.ledger| + 1] else item.lowStockRounds)
      && after.(stockOnHand := item.stockOnHand, version := item.version, ledger := item.ledger,
                lowStockRounds := item.lowStockRounds) == item
  {
  }

  // A refusal for want of stock names what there is and what was asked for.
  lemma StockReport(item: Item, op: Op, onHand: int, asked: int)
    requires op.OpRecordStock? && Apply(item, op) == Err(InsufficientStock(onHand, asked))
    ensures onHand == item.stockOnHand && asked == -op.delta && asked > onHand
  {
  }
}
