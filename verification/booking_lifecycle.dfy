// What becomes of a single booking over any run, and what its calls do to the load
// (backend/apps/resources/services.py, lines 91-106 and 875-1102).
module BookingLifecycle {
  import opened Clock
  import opened Results
  import opened Bookings
  import opened ResourceItems
  import opened BookingRuns

  predicate Over(s: BookingStatus) {
    s.Rejected? || s.Cancelled? || s.Completed?
  }

  // One call: a pending booking is decided or given up, a granted one given up or finished.
  predicate MayFollow(a: BookingStatus, b: BookingStatus) {
    || a == b
    || (a.Pending? && (b.Confirmed? || b.Rejected? || b.Cancelled?))
    || ((a.Confirmed? || a.Reserved?) && (b.Cancelled? || b.Completed?))
  }

  // Any number of calls.
  predicate MayBecome(a: BookingStatus, b: BookingStatus) {
    || a == b
    || (a.Pending? && (b.Confirmed? || Over(b)))
    || ((a.Confirmed? || a.Reserved?) && (b.Cancelled? || b.Completed?))
  }

  // A booking has a completion time exactly when it is completed.
  predicate Stamped(b: Booking) {
    b.status.Completed? <==> b.completedAt.Some?
  }

  ghost predicate AllStamped(rows: seq<Booking>) {
    forall i :: 0 <= i < |rows| ==> Stamped(rows[i])
  }

  predicate Continues(a: Booking, b: Booking) {
    a.requester == b.requester && MayFollow(a.status, b.status) && a.version <= b.version <= a.version + 1
  }

  ghost predicate AllContinue(rows: seq<Booking>, after: seq<Booking>) {
    |rows| <= |after| && forall i :: 0 <= i < |rows| ==> Continues(rows[i], after[i])
  }

  lemma StepContinues(item: Item, op: Op)
    requires AllStamped(item.bookings)
    ensures AllStamped(Step(item, op).bookings) && AllContinue(item.bookings, Step(item, op).bookings)
  {
  }

  // Bookings are never deleted or handed over, statuses only move forward, and what is over stays
  // over.
  lemma {:induction false} BookingsOnlyMoveForward(item: Item, ops: seq<Op>, i: nat)
    requires AllStamped(item.bookings) && i < |item.bookings|
    ensures AllStamped(Run(item, ops).bookings) && i < |Run(item, ops).bookings|
    ensures var before, after := item.bookings[i], Run(item, ops).bookings[i];
      && after.requester == before.requester && before.version <= after.version
      && MayBecome(before.status, after.status) && (Over(before.status) ==> after.status == before.status)
  {
    if ops != [] {
      var before := Run(item, ops[..|ops| - 1]);
      BookingsOnlyMoveForward(item, ops[..|ops| - 1], i);
      StepContinues(before, ops[|ops| - 1]);
      assert Continues(before.bookings[i], Run(item, ops).bookings[i]);
    }
  }

  // The resource can take the booking: bookable equipment that is available, calibrated and not under
  // maintenance then, with enough units left by the bookings that overlap.
  ghost predicate HasRoom(item: Item, b: Booking) {
    && item.kind.Equipment? && item.status.Available?
    && (item.nextCalibration.Some? ==> b.startsAt / DAY < item.nextCalibration.value)
    && (forall k :: 0 <= k < |item.maintenance| ==> !Blocks(item.maintenance[k], b.startsAt, b.endsAt))
    && b.quantity <= item.totalQuantity && b.quantity + Used(item, b.startsAt, b.endsAt, None) <= item.totalQuantity
  }

  lemma RoomIff(item: Item, b: Booking)
    requires Storable(b)
    ensures CapacityRefusal(item, b.startsAt, b.endsAt, b.quantity, None).None? <==> HasRoom(item, b)
  {
  }

  // Nothing but a manager's approval confirms a pending booking, and only while there is room for it.
  lemma OnlyApprovalConfirms(item: Item, op: Op, i: nat)
    requires i < |item.bookings| && item.bookings[i].status.Pending? && Storable(item.bookings[i])
    ensures i < |Step(item, op).bookings|
    ensures Step(item, op).bookings[i].status.Confirmed? <==>
      op.OpDecideBooking? && op.id == i && op.approve && IsManager(op.actor) && HasRoom(item, item.bookings[i])
  {
    RoomIff(item, item.bookings[i]);
  }

  // A live booking can be returned by its requester or a manager strictly between its start and its
  // end. At the very start the service's own window test still passes, and the database rejects the
  // empty booking.
  lemma ReturnSucceedsIff(item: Item, actor: Actor, now: int, id: nat)
    requires AllStorable(item.bookings) && id < |item.bookings|
    ensures var b := item.bookings[id];
      && (ReturnBooking(item, actor, now, id).Ok? <==>
           actor.active && MayChange(actor, b) && Live(b) && b.startsAt < now < b.endsAt)
      && (actor.active && MayChange(actor, b) && Live(b) && now == b.startsAt ==>
           ReturnBooking(item, actor, now, id) == Err(ConstraintViolation))
  {
  }

  // ---- What calls do to the load --------------------------------------------------------

  // Giving up or returning a booking takes exactly its load away.
  lemma ReleaseTakesLoad(item: Item, op: Op, t: int)
    requires Apply(item, op).Ok? && (op.OpCancelBooking? || op.OpReturnBooking?)
    ensures op.id < |item.bookings|
    ensures Units(Step(item, op).bookings, t) == Units(item.bookings, t) - UnitsAt(t)(item.bookings[op.id])
    ensures Count(Step(item, op).bookings, t) == Count(item.bookings, t) - OneAt(t)(item.bookings[op.id])
  {
    LoadOfReplace(item.bookings, op.id, Step(item, op).bookings[op.id], t);
  }

  // Cancelling right after booking restores the load at every instant.
  lemma CancelUndoesBooking(item: Item, book: Op, cancel: Op, t: int)
    requires book.OpCreateBooking? && Apply(item, book).Ok?
    requires cancel.OpCancelBooking? && cancel.actor == book.actor && cancel.id == |item.bookings| && cancel.now < book.from
    ensures Apply(Step(item, book), cancel).Ok?
    ensures Units(Step(Step(item, book), cancel).bookings, t) == Units(item.bookings, t)
    ensures Count(Step(Step(item, book), cancel).bookings, t) == Count(item.bookings, t)
  {
    var booked := Step(item, book);
    LoadOfAppend(item.bookings, booked.bookings[|item.bookings|], t);
    ReleaseTakesLoad(booked, cancel, t);
  }
}
