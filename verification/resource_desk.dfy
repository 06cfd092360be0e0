// The resource services as they run: one locked resource record whose columns and rows are
// updated in place (backend/apps/resources/services.py). Each method commits or refuses exactly
// as the step functions of ResourceItems say.
module ResourceDesk {
  import opened Clock
  import opened Results
  import opened Sums
  import opened Bookings
  import opened Sweep
  import opened ResourceItems

  ghost predicate Follows(reply: Reply, refusal: Option<Refusal>, before: Item, after: Item) {
    match reply
    case Ok(committed) => refusal == None && after == committed
    case Err(reason) => refusal == Some(reason) && after == before
  }

  function EndedOne(now: int): Booking -> int {
    (b: Booking) => if Ended(b, now) then 1 else 0
  }

  class Resource {
    var kind: Kind
    var status: Status
    var totalQuantity: int
    var version: int
    var stockOnHand: int
    var reorderLevel: int
    var calibrationInterval: Option<int>
    var nextCalibration: Option<int>
    var bookings: seq<Booking>
    var maintenance: seq<Maintenance>
    var submissions: nat
    var ledger: seq<StockRow>
    var lowStockRounds: seq<nat>

    ghost function Snapshot(): Item
      reads this
    {
      Item(kind, status, totalQuantity, version, stockOnHand, reorderLevel, calibrationInterval,
           nextCalibration, bookings, maintenance, submissions, ledger, lowStockRounds)
    }

    constructor (item: Item)
      ensures Snapshot() == item
    {
      kind, status, totalQuantity, version := item.kind, item.status, item.totalQuantity, item.version;
      stockOnHand, reorderLevel := item.stockOnHand, item.reorderLevel;
      calibrationInterval, nextCalibration := item.calibrationInterval, item.nextCalibration;
      bookings, maintenance, submissions := item.bookings, item.maintenance, item.submissions;
      ledger, lowStockRounds := item.ledger, item.lowStockRounds;
    }

    method MaintenanceBlocks(from: int, to: int) returns (found: bool)
      ensures found <==> exists i :: 0 <= i < |maintenance| && Blocks(maintenance[i], from, to)
    {
      found := false;
      for i := 0 to |maintenance|
        invariant found <==> exists k :: 0 <= k < i && Blocks(maintenance[k], from, to)
      {
        if Blocks(maintenance[i], from, to) {
          found := true;
        }
      }
    }

    // The aggregate over overlapping live bookings, leaving out the one being changed.
    method SumOverlapping(from: int, to: int, exclude: Option<nat>) returns (used: int)
      ensures used == Used(Snapshot(), from, to, exclude)
    {
      used := 0;
      for i := 0 to |bookings|
        invariant used == Total(bookings[..i], UnitsOver(from, to)) -
          if exclude.Some? && exclude.value < i then UnitsOver(from, to)(bookings[exclude.value]) else 0
      {
        assert bookings[..i + 1] == bookings[..i] + [bookings[i]];
        TotalAppend(bookings[..i], bookings[i], UnitsOver(from, to));
        if Overlaps(bookings[i], from, to) && exclude != Some(i) {
          used := used + bookings[i].quantity;
        }
      }
      assert bookings[..|bookings|] == bookings;
      if exclude.Some? && exclude.value < |bookings| {
        TotalWithout(bookings, exclude.value, UnitsOver(from, to));
      }
    }

    // _assert_capacity
    method AssertCapacity(from: int, to: int, quantity: int, exclude: Option<nat>) returns (refusal: Option<Refusal>)
      ensures refusal == CapacityRefusal(Snapshot(), from, to, quantity, exclude)
    {
      if kind.Consumable? { return Some(ConsumableNotBookable); }
      if !status.Available? { return Some(ResourceUnusable); }
      if nextCalibration.Some? && nextCalibration.value <= from / DAY { return Some(CalibrationDue); }
      var blocked := MaintenanceBlocks(from, to);
      if blocked { return Some(MaintenanceConflict); }
      if quantity > totalQuantity { return Some(InsufficientCapacity(totalQuantity, quantity)); }
      var used := SumOverlapping(from, to, exclude);
      var free := if totalQuantity - used > 0 then totalQuantity - used else 0;
      refusal := if quantity > free then Some(InsufficientCapacity(free, quantity)) else None;
    }

    method Book(actor: Actor, now: int, from: int, to: int, quantity: int, needsApproval: bool)
      returns (refusal: Option<Refusal>)
      modifies this`bookings
      ensures Follows(CreateBooking(old(Snapshot()), actor, now, from, to, quantity, needsApproval),
                      refusal, old(Snapshot()), Snapshot())
    {
      if !actor.active { return Some(Forbidden); }
      if !WindowAllowed(actor, now, from, to) { return Some(InvalidWindow); }
      if quantity < 1 { return Some(InvalidQuantity); }
      if !status.Available? { return Some(NotUsable); }
      var granted := if IsStudent(actor) && needsApproval then Pending else Confirmed;
      refusal := AssertCapacity(from, to, quantity, None);
      if refusal.None? {
        bookings := bookings + [Booking(actor.id, from, to, quantity, granted, 1, None)];
      }
    }

    static method CheckChange(actor: Actor, now: int, b: Booking, expected: Option<int>) returns (refusal: Option<Refusal>)
      ensures refusal == ChangeRefusal(actor, now, b, expected)
    {
      if !actor.active { return Some(Forbidden); }
      if b.startsAt <= now { return Some(AlreadyStarted); }
      if !MayChange(actor, b) { return Some(Forbidden); }
      refusal := if expected.Some? && expected.value != b.version then Some(StaleVersion(b.version)) else None;
    }

    method Rebook(actor: Actor, now: int, id: nat, from: Option<int>, to: Option<int>, quantity: Option<int>,
                  expected: Option<int>)
      returns (refusal: Option<Refusal>)
      modifies this`bookings
      ensures Follows(UpdateBooking(old(Snapshot()), actor, now, id, from, to, quantity, expected),
                      refusal, old(Snapshot()), Snapshot())
    {
      if id >= |bookings| { return Some(NotFound); }
      var b := bookings[id];
      refusal := CheckChange(actor, now, b, expected);
      if refusal.Some? { return; }
      var newFrom, newTo := OrElse(from, b.startsAt), OrElse(to, b.endsAt);
      var newQuantity := OrElseNonZero(quantity, b.quantity);
      if newTo <= newFrom || newFrom <= now { return Some(InvalidWindow); }
      if Live(b) {
        refusal := AssertCapacity(newFrom, newTo, newQuantity, Some(id));
        if refusal.Some? { return; }
      }
      b := b.(startsAt := newFrom, endsAt := newTo, quantity := newQuantity, version := b.version + 1);
      if !Storable(b) { return Some(ConstraintViolation); }
      bookings := bookings[id := b];
      return None;
    }

    method Cancel(actor: Actor, now: int, id: nat) returns (refusal: Option<Refusal>)
      modifies this`bookings
      ensures Follows(CancelBooking(old(Snapshot()), actor, now, id), refusal, old(Snapshot()), Snapshot())
    {
      if !actor.active { return Some(Forbidden); }
      if id >= |bookings| { return Some(NotFound); }
      var b := bookings[id];
      if b.startsAt <= now { return Some(AlreadyStarted); }
      if !MayChange(actor, b) { return Some(Forbidden); }
      if !b.status.Pending? && !Live(b) { return Some(StaleDecision(b.status)); }
      bookings := bookings[id := b.(status := BookingStatus.Cancelled, version := b.version + 1)];
      return None;
    }

    method Return(actor: Actor, now: int, id: nat) returns (refusal: Option<Refusal>)
      modifies this`bookings
      ensures Follows(ReturnBooking(old(Snapshot()), actor, now, id), refusal, old(Snapshot()), Snapshot())
    {
      if !actor.active { return Some(Forbidden); }
      if id >= |bookings| { return Some(NotFound); }
      var b := bookings[id];
      if !MayChange(actor, b) { return Some(Forbidden); }
      if !Live(b) { return Some(ReturnNotAllowed(b.status)); }
      if !(b.startsAt <= now < b.endsAt) { return Some(ReturnWindowInvalid); }
      b := b.(endsAt := now, status := BookingStatus.Completed, completedAt := Some(now), version := b.version + 1);
      if !Storable(b) { return Some(ConstraintViolation); }
      bookings := bookings[id := b];
      return None;
    }

    method Decide(actor: Actor, id: nat, approve: bool) returns (refusal: Option<Refusal>)
      modifies this`bookings
      ensures Follows(DecideBooking(old(Snapshot()), actor, id, approve), refusal, old(Snapshot()), Snapshot())
    {
      if !IsManager(actor) { return Some(Forbidden); }
      if id >= |bookings| { return Some(NotFound); }
      var b := bookings[id];
      if !b.status.Pending? { return Some(StaleDecision(b.status)); }
      if approve {
        refusal := AssertCapacity(b.startsAt, b.endsAt, b.quantity, None);
        if refusal.Some? { return; }
        b := b.(status := Confirmed);
      } else {
        b := b.(status := Rejected);
      }
      bookings := bookings[id := b.(version := b.version + 1)];
      return None;
    }

    // reconcile_completed_bookings, for this resource's rows; returns how many it completed.
    method FinishEnded(now: int) returns (updated: int)
      modifies this`bookings
      ensures Snapshot() == CompleteEnded(old(Snapshot()), now).value
      ensures updated == Total(old(bookings), EndedOne(now))
    {
      updated := 0;
      var rows: seq<Booking> := [];
      for i := 0 to |bookings|
        invariant rows == FinishedRows(bookings[..i], now)
        invariant updated == Total(bookings[..i], EndedOne(now))
      {
        var b := bookings[i];
        assert bookings[..i + 1] == bookings[..i] + [b];
        assert bookings[..i + 1][..i] == bookings[..i];
        if Ended(b, now) {
          b := b.(status := BookingStatus.Completed, completedAt := Some(now));
          updated := updated + 1;
        }
        rows := rows + [b];
      }
      assert bookings[..|bookings|] == bookings;
      bookings := rows;
    }

    // The checks of update_resource on a requested total.
    method CheckTotal(requested: Option<int>) returns (refusal: Option<Refusal>)
      requires AllStorable(bookings)
      ensures refusal == TotalRefusal(bookings, requested)
    {
      if requested.None? { return None; }
      if requested.value < 1 { return Some(InvalidQuantity); }
      var safe := SafeMinimumQuantity(bookings);
      refusal := if requested.value < safe then Some(QuantityCommitmentConflict(safe)) else None;
    }

    // full_clean on the edited fields.
    method IsClean(change: ItemChange) returns (clean: bool)
      ensures clean == Clean(Changed(Snapshot(), change))
    {
      var newKind := if change.kind.Some? then change.kind.value else kind;
      var newInterval := if change.calibrationInterval.Some? then change.calibrationInterval.value else calibrationInterval;
      if newInterval.Some? && newInterval.value < 0 { return false; }
      if newKind.Consumable? && newInterval.Some? && newInterval.value != 0 { return false; }
      return OrElse(change.totalQuantity, totalQuantity) >= 1 && OrElse(change.reorderLevel, reorderLevel) >= 0 && stockOnHand >= 0;
    }

    // The field assignments of update_resource.
    method Assign(change: ItemChange)
      modifies this
      ensures Snapshot() == Changed(old(Snapshot()), change)
    {
      totalQuantity, reorderLevel := OrElse(change.totalQuantity, totalQuantity), OrElse(change.reorderLevel, reorderLevel);
      status := if change.status.Some? then change.status.value else status;
      kind := if change.kind.Some? then change.kind.value else kind;
      calibrationInterval := if change.calibrationInterval.Some? then change.calibrationInterval.value else calibrationInterval;
      nextCalibration := if change.nextCalibration.Some? then change.nextCalibration.value else nextCalibration;
      version := version + 1;
    }

    // full_clean raises before anything is saved.
    method Save(change: ItemChange) returns (clean: bool)
      modifies this
      ensures clean == Clean(Changed(old(Snapshot()), change))
      ensures Snapshot() == if clean then Changed(old(Snapshot()), change) else old(Snapshot())
    {
      clean := IsClean(change);
      if clean {
        Assign(change);
      }
    }

    // update_resource
    method Edit(actor: Actor, change: ItemChange) returns (refusal: Option<Refusal>)
      requires AllStorable(bookings)
      modifies this
      ensures Follows(UpdateItem(old(Snapshot()), actor, change), refusal, old(Snapshot()), Snapshot())
    {
      if !IsManager(actor) { return Some(Forbidden); }
      if change.version != Some(version) { return Some(StaleVersion(version)); }
      refusal := CheckTotal(change.totalQuantity);
      if refusal.Some? { return; }
      if change.kind.Some? && change.kind.value != kind {
        if bookings != [] || submissions != 0 || maintenance != [] || ledger != [] { return Some(KindHasHistory); }
      }
      var clean := Save(change);
      refusal := if clean then None else Some(InvalidItem);
    }

    method TakeOffline()
      modifies this`status, this`version
      ensures Snapshot() == TakenOffline(old(Snapshot()))
    {
      if !status.Retired? {
        status := Unavailable;
        version := version + 1;
      }
    }

    method OpenMaintenance(actor: Actor, now: int, maintenanceKind: MaintenanceKind, scheduledAt: int,
                           dueAt: Option<int>, takesOffline: bool)
      returns (refusal: Option<Refusal>)
      modifies this
      ensures Follows(CreateMaintenance(old(Snapshot()), actor, now, maintenanceKind, scheduledAt, dueAt, takesOffline),
                      refusal, old(Snapshot()), Snapshot())
    {
      if !IsManager(actor) { return Some(Forbidden); }
      if !kind.Equipment? { return Some(WrongKind); }
      if dueAt.Some? && dueAt.value < scheduledAt { return Some(InvalidMaintenance); }
      maintenance := maintenance + [Maintenance(maintenanceKind, Scheduled, scheduledAt, dueAt, takesOffline)];
      if takesOffline && (maintenanceKind.Fault? || scheduledAt <= now) {
        TakeOffline();
      }
      return None;
    }

    // Whether some record other than `exclude` takes the resource out of use now.
    method OutageFound(now: int, exclude: Option<nat>) returns (found: bool)
      requires exclude.Some? ==> exclude.value < |maintenance|
      ensures found <==>
        AnyOutage(if exclude.Some? then Without(maintenance, exclude.value) else maintenance, now)
    {
      found := false;
      ghost var rows := if exclude.Some? then Without(maintenance, exclude.value) else maintenance;
      for i := 0 to |maintenance|
        invariant found ==> AnyOutage(rows, now)
        invariant !found ==> forall k :: 0 <= k < i && exclude != Some(k) ==> !OutageNow(maintenance[k], now)
      {
        if exclude != Some(i) && OutageNow(maintenance[i], now) {
          found := true;
          assert rows[if exclude.Some? && exclude.value < i then i - 1 else i] == maintenance[i];
        }
      }
      if !found {
        forall k | 0 <= k < |rows| ensures !OutageNow(rows[k], now) {
          assert rows[k] == maintenance[if exclude.Some? && exclude.value <= k then k + 1 else k];
        }
      }
    }

    method MoveMaintenance(actor: Actor, now: int, today: int, id: nat, newStatus: MaintenanceStatus)
      returns (refusal: Option<Refusal>)
      modifies this
      ensures Follows(TransitionMaintenance(old(Snapshot()), actor, now, today, id, newStatus),
                      refusal, old(Snapshot()), Snapshot())
    {
      if !IsManager(actor) { return Some(Forbidden); }
      if id >= |maintenance| { return Some(NotFound); }
      var m := maintenance[id];
      if m.status.Completed? || m.status.Cancelled? { return Some(ClosedMaintenance); }
      if newStatus.Scheduled? { return Some(InvalidMaintenance); }
      if newStatus.Completed? {
        if m.kind.Calibration? && calibrationInterval.Some? && calibrationInterval.value != 0 {
          nextCalibration := Some(today + calibrationInterval.value);
        }
        var outage := OutageFound(now, Some(id));
        if !outage && !status.Retired? {
          status := Status.Available;
        }
        version := version + 1;
      } else if newStatus.InProgress? && m.takesOffline {
        TakeOffline();
      } else if newStatus.Cancelled? && m.takesOffline {
        var outage := OutageFound(now, Some(id));
        if !outage && !status.Retired? {
          status := Status.Available;
          version := version + 1;
        }
      }
      maintenance := maintenance[id := m.(status := newStatus)];
      return None;
    }

    // reconcile_resource_operation_alerts
    method Reconcile(now: int, today: int)
      modifies this`status, this`version
      ensures Snapshot() == ReconcileOperations(old(Snapshot()), now, today).value
    {
      if kind.Equipment? && status.Available? {
        var outage := OutageFound(now, None);
        if outage {
          status, version := Unavailable, version + 1;
        }
      }
      if kind.Equipment? && nextCalibration.Some? && nextCalibration.value <= today && !status.Retired? {
        if status.Available? {
          status, version := Unavailable, version + 1;
        }
      }
    }

    method Stock(actor: Actor, stockKind: StockKind, delta: int) returns (refusal: Option<Refusal>)
      modifies this
      ensures Follows(RecordStock(old(Snapshot()), actor, stockKind, delta), refusal, old(Snapshot()), Snapshot())
    {
      if !IsManager(actor) { return Some(Forbidden); }
      if !kind.Consumable? { return Some(WrongKind); }
      if delta == 0 { return Some(InvalidStockChange); }
      if stockKind.Receipt? && delta < 0 { return Some(InvalidStockChange); }
      if stockKind.Issue? && delta > 0 { return Some(InvalidStockChange); }
      var newBalance := stockOnHand + delta;
      if newBalance < 0 { return Some(InsufficientStock(stockOnHand, -delta)); }
      var priorBalance := stockOnHand;
      stockOnHand := newBalance;
      version := version + 1;
      ledger := ledger + [StockRow(stockKind, delta, newBalance)];
      if priorBalance > reorderLevel && newBalance <= reorderLevel {
        lowStockRounds := lowStockRounds + [|ledger|];
      }
      return None;
    }
  }
}
