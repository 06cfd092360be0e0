// One resource with its bookings, maintenance records, use submissions and stock ledger, and
// what each service call does to it (backend/apps/resources/services.py). Every call is one
// transaction: it either commits a new item or is refused and changes nothing. Dates are day numbers,
// and instant 0 is midnight.
module ResourceItems {
  import opened Clock
  import opened Results
  import opened Sums
  import opened Bookings
  import opened Sweep

  datatype Role = Student | Manager | OtherRole

  datatype Actor = Actor(id: int, role: Role, active: bool)

  predicate IsManager(a: Actor) { a.active && a.role.Manager? }

  predicate IsStudent(a: Actor) { a.active && a.role.Student? }

  datatype Kind = Equipment | Consumable

  datatype Status = Available | Unavailable | Retired

  datatype MaintenanceKind = Preventive | Calibration | Repair | Fault

  datatype MaintenanceStatus = Scheduled | InProgress | Completed | Cancelled

  datatype Maintenance = Maintenance(
    kind: MaintenanceKind,
    status: MaintenanceStatus,
    scheduledAt: int,
    dueAt: Option<int>,
    takesOffline: bool)

  datatype StockKind = Receipt | Issue | Adjustment

  datatype StockRow = StockRow(kind: StockKind, delta: int, balanceAfter: int)

  datatype Item = Item(
    kind: Kind,
    status: Status,
    totalQuantity: int,
    version: int,
    stockOnHand: int,
    reorderLevel: int,
    calibrationInterval: Option<int>,
    nextCalibration: Option<int>,
    bookings: seq<Booking>,
    maintenance: seq<Maintenance>,
    submissions: nat,
    ledger: seq<StockRow>,
    lowStockRounds: seq<nat>) // ledger length at each round of low-stock notifications

  datatype Refusal =
    | Forbidden
    | NotFound
    | InvalidWindow
    | InvalidQuantity
    | NotUsable
    | AlreadyStarted
    | StaleVersion(current: int)
    | StaleDecision(currentStatus: BookingStatus)
    | ReturnNotAllowed(currentStatus: BookingStatus)
    | ReturnWindowInvalid
    | ConsumableNotBookable
    | ResourceUnusable
    | CalibrationDue
    | MaintenanceConflict
    | InsufficientCapacity(available: int, requested: int)
    | QuantityCommitmentConflict(safeMinimum: int)
    | KindHasHistory
    | InvalidItem
    | WrongKind
    | InvalidMaintenance
    | ClosedMaintenance
    | InvalidStockChange
    | InsufficientStock(onHand: int, asked: int)
    | ConstraintViolation

  type Reply = Result<Item, Refusal>

  // Python's `x or y` on optional values; a quantity of 0 also counts as absent.
  function OrElse(x: Option<int>, y: int): int {
    if x.Some? then x.value else y
  }

  function OrElseNonZero(x: Option<int>, y: int): int {
    if x.Some? && x.value != 0 then x.value else y
  }

  // ---- Booking rules --------------------------------------------------------------------

  // An open offline record blocks a booking window that it overlaps.
  predicate Blocks(m: Maintenance, from: int, to: int) {
    && m.takesOffline
    && (m.status.Scheduled? || m.status.InProgress?)
    && m.scheduledAt < to
    && (m.dueAt.Some? ==> from < m.dueAt.value)
  }

  function Used(item: Item, from: int, to: int, exclude: Option<nat>): int {
    var rows := if exclude.Some? && exclude.value < |item.bookings|
                then Without(item.bookings, exclude.value) else item.bookings;
    Total(rows, UnitsOver(from, to))
  }

  function FreeUnits(item: Item, from: int, to: int, exclude: Option<nat>): int {
    var free := item.totalQuantity - Used(item, from, to, exclude);
    if free > 0 then free else 0
  }

  // _assert_capacity: the reason a window of the given quantity cannot be granted.
  function CapacityRefusal(item: Item, from: int, to: int, quantity: int, exclude: Option<nat>): Option<Refusal> {
    if item.kind.Consumable? then Some(ConsumableNotBookable)
    else if !item.status.Available? then Some(ResourceUnusable)
    else if item.nextCalibration.Some? && item.nextCalibration.value <= from / DAY then Some(CalibrationDue)
    else if exists i :: 0 <= i < |item.maintenance| && Blocks(item.maintenance[i], from, to) then
      Some(MaintenanceConflict)
    else if quantity > item.totalQuantity then Some(InsufficientCapacity(item.totalQuantity, quantity))
    else if quantity > FreeUnits(item, from, to, exclude) then
      Some(InsufficientCapacity(FreeUnits(item, from, to, exclude), quantity))
    else None
  }

  // _window, and _direct_use_window for staff.
  predicate WindowAllowed(actor: Actor, now: int, from: int, to: int) {
    from < to && if IsManager(actor) then now < to else now < from
  }

  function CreateBooking(item: Item, actor: Actor, now: int, from: int, to: int, quantity: int, needsApproval: bool): Reply {
    if !actor.active then Err(Forbidden)
    else if !WindowAllowed(actor, now, from, to) then Err(InvalidWindow)
    else if quantity < 1 then Err(InvalidQuantity)
    else if !item.status.Available? then Err(NotUsable)
    else
      var refusal := CapacityRefusal(item, from, to, quantity, None);
      if refusal.Some? then Err(refusal.value)
      else
        var status := if IsStudent(actor) && needsApproval then Pending else Confirmed;
        Ok(item.(bookings := item.bookings + [Booking(actor.id, from, to, quantity, status, 1, None)]))
  }

  predicate MayChange(actor: Actor, b: Booking) {
    b.requester == actor.id || IsManager(actor)
  }

  // Who may still change a booking.
  function ChangeRefusal(actor: Actor, now: int, b: Booking, version: Option<int>): Option<Refusal> {
    if !actor.active then Some(Forbidden)
    else if b.startsAt <= now then Some(AlreadyStarted)
    else if !MayChange(actor, b) then Some(Forbidden)
    else if version.Some? && version.value != b.version then Some(StaleVersion(b.version))
    else None
  }

  function UpdateBooking(item: Item, actor: Actor, now: int, id: nat, from: Option<int>, to: Option<int>,
                         quantity: Option<int>, version: Option<int>): Reply {
    if id >= |item.bookings| then Err(NotFound)
    else
      var b := item.bookings[id];
      var changed := b.(startsAt := OrElse(from, b.startsAt), endsAt := OrElse(to, b.endsAt),
                        quantity := OrElseNonZero(quantity, b.quantity), version := b.version + 1);
      if ChangeRefusal(actor, now, b, version).Some? then Err(ChangeRefusal(actor, now, b, version).value)
      else if changed.endsAt <= changed.startsAt || changed.startsAt <= now then Err(InvalidWindow)
      else
        var refusal := if Live(b) then CapacityRefusal(item, changed.startsAt, changed.endsAt, changed.quantity, Some(id)) else None;
        if refusal.Some? then Err(refusal.value)
        else if !Storable(changed) then Err(ConstraintViolation)
        else Ok(item.(bookings := item.bookings[id := changed]))
  }

  function CancelBooking(item: Item, actor: Actor, now: int, id: nat): Reply {
    if !actor.active then Err(Forbidden)
    else if id >= |item.bookings| then Err(NotFound)
    else
      var b := item.bookings[id];
      if b.startsAt <= now then Err(AlreadyStarted)
      else if !MayChange(actor, b) then Err(Forbidden)
      else if !b.status.Pending? && !Live(b) then Err(StaleDecision(b.status))
      else Ok(item.(bookings := item.bookings[id := b.(status := BookingStatus.Cancelled, version := b.version + 1)]))
  }

  // Returning at the very start instant would store an empty window; the check constraint
  // booking_end_after_start rejects that.
  function ReturnBooking(item: Item, actor: Actor, now: int, id: nat): Reply {
    if !actor.active then Err(Forbidden)
    else if id >= |item.bookings| then Err(NotFound)
    else
      var b := item.bookings[id];
      if !MayChange(actor, b) then Err(Forbidden)
      else if !Live(b) then Err(ReturnNotAllowed(b.status))
      else if !(b.startsAt <= now < b.endsAt) then Err(ReturnWindowInvalid)
      else
        var returned := b.(endsAt := now, status := BookingStatus.Completed, completedAt := Some(now), version := b.version + 1);
        if !Storable(returned) then Err(ConstraintViolation)
        else Ok(item.(bookings := item.bookings[id := returned]))
  }

  function DecideBooking(item: Item, actor: Actor, id: nat, approve: bool): Reply {
    if !IsManager(actor) then Err(Forbidden)
    else if id >= |item.bookings| then Err(NotFound)
    else
      var b := item.bookings[id];
      if !b.status.Pending? then Err(StaleDecision(b.status))
      else
        var refusal := if approve then CapacityRefusal(item, b.startsAt, b.endsAt, b.quantity, None) else None;
        if refusal.Some? then Err(refusal.value)
        else
          var status := if approve then Confirmed else Rejected;
          Ok(item.(bookings := item.bookings[id := b.(status := status, version := b.version + 1)]))
  }

  predicate Ended(b: Booking, now: int) {
    Live(b) && b.endsAt <= now && b.completedAt.None?
  }

  function Finished(b: Booking, now: int): Booking {
    if Ended(b, now) then b.(status := BookingStatus.Completed, completedAt := Some(now)) else b
  }

  function FinishedRows(rows: seq<Booking>, now: int): (r: seq<Booking>)
    ensures |r| == |rows|
    ensures forall i :: 0 <= i < |rows| ==> r[i] == Finished(rows[i], now)
  {
    if rows == [] then []
    else FinishedRows(rows[..|rows| - 1], now) + [Finished(rows[|rows| - 1], now)]
  }

  function CompleteEnded(item: Item, now: int): Reply {
    Ok(item.(bookings := FinishedRows(item.bookings, now)))
  }

  // ---- Inventory ------------------------------------------------------------------------

  datatype ItemChange = ItemChange(
    version: Option<int>,
    totalQuantity: Option<int>,
    status: Option<Status>,
    kind: Option<Kind>,
    reorderLevel: Option<int>,
    calibrationInterval: Option<Option<int>>,
    nextCalibration: Option<Option<int>>)

  predicate HasHistory(item: Item) {
    item.bookings != [] || item.submissions != 0 || item.maintenance != [] || item.ledger != []
  }

  // full_clean: positive quantity, non-negative stock fields and calibration interval, and no interval
  // on stock.
  predicate Clean(item: Item) {
    && item.totalQuantity >= 1
    && item.reorderLevel >= 0
    && item.stockOnHand >= 0
    && (item.calibrationInterval.Some? ==> item.calibrationInterval.value >= 0)
    && (item.kind.Consumable? ==> item.calibrationInterval.None? || item.calibrationInterval.value == 0)
  }

  function Changed(item: Item, change: ItemChange): Item {
    item.(
      totalQuantity := OrElse(change.totalQuantity, item.totalQuantity),
      status := if change.status.Some? then change.status.value else item.status,
      kind := if change.kind.Some? then change.kind.value else item.kind,
      reorderLevel := OrElse(change.reorderLevel, item.reorderLevel),
      calibrationInterval := if change.calibrationInterval.Some? then change.calibrationInterval.value else item.calibrationInterval,
      nextCalibration := if change.nextCalibration.Some? then change.nextCalibration.value else item.nextCalibration,
      version := item.version + 1)
  }

  // The checks on a requested total quantity.
  function TotalRefusal(rows: seq<Booking>, requested: Option<int>): Option<Refusal> {
    if requested.None? then None
    else if requested.value < 1 then Some(InvalidQuantity)
    else if requested.value < SafeMinimum(rows) then Some(QuantityCommitmentConflict(SafeMinimum(rows)))
    else None
  }

  function UpdateItem(item: Item, actor: Actor, change: ItemChange): Reply {
    if !IsManager(actor) then Err(Forbidden)
    else if change.version != Some(item.version) then Err(StaleVersion(item.version))
    else if TotalRefusal(item.bookings, change.totalQuantity).Some? then
      Err(TotalRefusal(item.bookings, change.totalQuantity).value)
    else if change.kind.Some? && change.kind.value != item.kind && HasHistory(item) then Err(KindHasHistory)
    else if Clean(Changed(item, change)) then Ok(Changed(item, change))
    else Err(InvalidItem)
  }

  function RetireItem(item: Item, actor: Actor): Reply {
    if !IsManager(actor) then Err(Forbidden)
    else Ok(item.(status := Retired, version := item.version + 1))
  }

  function SubmitUse(item: Item, actor: Actor): Reply {
    if !IsStudent(actor) then Err(Forbidden)
    else if item.kind.Consumable? then Err(WrongKind)
    else if item.status.Retired? then Err(NotUsable)
    else Ok(item.(submissions := item.submissions + 1))
  }

  // create_resource: a new row, with an opening ledger row and alert for stocked goods.
  function CreateItem(actor: Actor, kind: Kind, status: Status, total: int, stock: int, reorder: int,
                      interval: Option<int>, next: Option<int>): Reply {
    var base := Item(kind, status, total, 1, stock, reorder, interval, next, [], [], 0, [], []);
    if !IsManager(actor) then Err(Forbidden)
    else if total < 1 then Err(InvalidQuantity)
    else if !Clean(base) then Err(InvalidItem)
    else
      var stocked := if kind.Consumable? && stock != 0
                    then base.(ledger := [StockRow(Adjustment, stock, stock)]) else base;
      Ok(if kind.Consumable? && stock <= reorder then stocked.(lowStockRounds := [|stocked.ledger|]) else stocked)
  }

  // ---- Maintenance ----------------------------------------------------------------------

  // An offline record that takes the resource out of use now.
  predicate OutageNow(m: Maintenance, now: int) {
    && m.takesOffline
    && (m.status.Scheduled? || m.status.InProgress?)
    && (m.status.InProgress? || m.kind.Fault? || m.scheduledAt <= now)
  }

  predicate AnyOutage(records: seq<Maintenance>, now: int) {
    exists i :: 0 <= i < |records| && OutageNow(records[i], now)
  }

  function TakenOffline(item: Item): Item {
    if item.status.Retired? then item else item.(status := Unavailable, version := item.version + 1)
  }

  function CreateMaintenance(item: Item, actor: Actor, now: int, kind: MaintenanceKind, scheduledAt: int,
                             dueAt: Option<int>, takesOffline: bool): Reply {
    if !IsManager(actor) then Err(Forbidden)
    else if !item.kind.Equipment? then Err(WrongKind)
    else if dueAt.Some? && dueAt.value < scheduledAt then Err(InvalidMaintenance)
    else
      var recorded := item.(maintenance := item.maintenance + [Maintenance(kind, Scheduled, scheduledAt, dueAt, takesOffline)]);
      Ok(if takesOffline && (kind.Fault? || scheduledAt <= now) then TakenOffline(recorded) else recorded)
  }

  function TransitionMaintenance(item: Item, actor: Actor, now: int, today: int, id: nat, status: MaintenanceStatus): Reply {
    if !IsManager(actor) then Err(Forbidden)
    else if id >= |item.maintenance| then Err(NotFound)
    else
      var m := item.maintenance[id];
      if m.status.Completed? || m.status.Cancelled? then Err(ClosedMaintenance)
      else if status.Scheduled? then Err(InvalidMaintenance)
      else
        var saved := item.(maintenance := item.maintenance[id := m.(status := status)]);
        var mayReopen := !AnyOutage(Without(item.maintenance, id), now) && !item.status.Retired?;
        match status
        case Completed =>
          var next := if m.kind.Calibration? && item.calibrationInterval.Some? && item.calibrationInterval.value != 0
                      then Some(today + item.calibrationInterval.value) else item.nextCalibration;
          Ok(saved.(nextCalibration := next, status := if mayReopen then Status.Available else item.status,
                    version := item.version + 1))
        case InProgress => Ok(if m.takesOffline then TakenOffline(saved) else saved)
        case Cancelled =>
          Ok(if m.takesOffline && mayReopen then saved.(status := Status.Available, version := item.version + 1) else saved)
        case Scheduled => Err(InvalidMaintenance)
  }

  predicate CalibrationOverdue(item: Item, today: int) {
    item.nextCalibration.Some? && item.nextCalibration.value <= today
  }

  // reconcile_resource_operation_alerts, for this resource.
  function ReconcileOperations(item: Item, now: int, today: int): Reply {
    var offline := if item.kind.Equipment? && item.status.Available? && AnyOutage(item.maintenance, now)
                   then item.(status := Unavailable, version := item.version + 1) else item;
    Ok(if offline.kind.Equipment? && CalibrationOverdue(offline, today) && offline.status.Available?
       then offline.(status := Unavailable, version := offline.version + 1) else offline)
  }

  // ---- Stock ----------------------------------------------------------------------------

  function RecordStock(item: Item, actor: Actor, kind: StockKind, delta: int): Reply {
    if !IsManager(actor) then Err(Forbidden)
    else if !item.kind.Consumable? then Err(WrongKind)
    else if delta == 0 || (kind.Receipt? && delta < 0) || (kind.Issue? && delta > 0) then Err(InvalidStockChange)
    else
      var balance := item.stockOnHand + delta;
      if balance < 0 then Err(InsufficientStock(item.stockOnHand, -delta))
      else
        var recorded := item.(stockOnHand := balance, version := item.version + 1,
                              ledger := item.ledger + [StockRow(kind, delta, balance)]);
        Ok(if item.stockOnHand > item.reorderLevel && balance <= item.reorderLevel
           then recorded.(lowStockRounds := item.lowStockRounds + [|recorded.ledger|]) else recorded)
  }

  // ---- Runs -----------------------------------------------------------------------------

  datatype Op =
    | OpCreateBooking(actor: Actor, now: int, from: int, to: int, quantity: int, needsApproval: bool)
    | OpUpdateBooking(actor: Actor, now: int, id: nat, newFrom: Option<int>, newTo: Option<int>,
                      newQuantity: Option<int>, expected: Option<int>)
    | OpCancelBooking(actor: Actor, now: int, id: nat)
    | OpReturnBooking(actor: Actor, now: int, id: nat)
    | OpDecideBooking(actor: Actor, id: nat, approve: bool)
    | OpCompleteEnded(now: int)
    | OpUpdateItem(actor: Actor, change: ItemChange)
    | OpRetireItem(actor: Actor)
    | OpSubmitUse(actor: Actor)
    | OpCreateMaintenance(actor: Actor, now: int, maintenanceKind: MaintenanceKind, scheduledAt: int,
                          dueAt: Option<int>, takesOffline: bool)
    | OpTransitionMaintenance(actor: Actor, now: int, today: int, id: nat, newStatus: MaintenanceStatus)
    | OpReconcileOperations(now: int, today: int)
    | OpRecordStock(actor: Actor, stockKind: StockKind, delta: int)

  function Apply(item: Item, op: Op): Reply {
    match op
    case OpCreateBooking(a, now, from, to, q, approval) => CreateBooking(item, a, now, from, to, q, approval)
    case OpUpdateBooking(a, now, id, from, to, q, v) => UpdateBooking(item, a, now, id, from, to, q, v)
    case OpCancelBooking(a, now, id) => CancelBooking(item, a, now, id)
    case OpReturnBooking(a, now, id) => ReturnBooking(item, a, now, id)
    case OpDecideBooking(a, id, approve) => DecideBooking(item, a, id, approve)
    case OpCompleteEnded(now) => CompleteEnded(item, now)
    case OpUpdateItem(a, change) => UpdateItem(item, a, change)
    case OpRetireItem(a) => RetireItem(item, a)
    case OpSubmitUse(a) => SubmitUse(item, a)
    case OpCreateMaintenance(a, now, kind, at, due, offline) => CreateMaintenance(item, a, now, kind, at, due, offline)
    case OpTransitionMaintenance(a, now, today, id, s) => TransitionMaintenance(item, a, now, today, id, s)
    case OpReconcileOperations(now, today) => ReconcileOperations(item, now, today)
    case OpRecordStock(a, kind, delta) => RecordStock(item, a, kind, delta)
  }

  // A refused call rolls back.
  function Step(item: Item, op: Op): Item {
    var reply := Apply(item, op);
    if reply.Ok? then reply.value else item
  }

  function Run(item: Item, ops: seq<Op>): Item {
    if ops == [] then item else Step(Run(item, ops[..|ops| - 1]), ops[|ops| - 1])
  }
}
