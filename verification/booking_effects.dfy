// Who may make, change, decide, give up and return a booking, what the row reads afterwards, and what
// that does to the load at every instant (backend/apps/resources/services.py, lines 91-106 and 807-1102).
module BookingEffects {
  import opened Results
  import opened Sums
  import opened Bookings
  import opened ResourceItems
  import opened BookingRuns
  import opened BookingLifecycle

  // ---- What the capacity rule measures --------------------------------------------------

  // A live booking overlaps a window when it covers an instant of it.
  lemma OverlapsIff(b: Booking, from: int, to: int)
    requires Storable(b) && from < to
    ensures Overlaps(b, from, to) <==> exists t :: from <= t < to && Covers(b, t)
  {
    if Overlaps(b, from, to) {
      var t := if b.startsAt < from then from else b.startsAt;
      assert Covers(b, t);
    }
  }

  predicate Spans(m: Maintenance, t: int) {
    m.scheduledAt <= t && (m.dueAt.Some? ==> t < m.dueAt.value)
  }

  // An open offline record blocks a window when it spans an instant of it; a record that ends where it
  // starts spans nothing and blocks the windows that contain its instant strictly inside.
  lemma BlocksIff(m: Maintenance, from: int, to: int)
    requires from < to && (m.dueAt.Some? ==> m.scheduledAt <= m.dueAt.value)
    ensures Blocks(m, from, to) <==>
      && m.takesOffline && !m.status.Completed? && !m.status.Cancelled?
      && if m.dueAt == Some(m.scheduledAt) then from < m.scheduledAt < to else exists t :: from <= t < to && Spans(m, t)
  {
    if Blocks(m, from, to) && m.dueAt != Some(m.scheduledAt) {
      var t := if m.scheduledAt < from then from else m.scheduledAt;
      assert Spans(m, t);
    }
  }

  // What is used of a window: nothing of a fresh resource, and one more booking adds its quantity exactly
  // when it covers an instant of the window.
  lemma UsedGrows(item: Item, b: Booking, from: int, to: int)
    requires Storable(b) && from < to
    ensures Used(item.(bookings := []), from, to, None) == 0
    ensures Used(item.(bookings := item.bookings + [b]), from, to, None) ==
      Used(item, from, to, None) + if exists t :: from <= t < to && Covers(b, t) then b.quantity else 0
  {
    TotalAppend(item.bookings, b, UnitsOver(from, to));
    OverlapsIff(b, from, to);
  }

  // What the other bookings use of a window leaves the booking itself out.
  lemma UsedByOthers(item: Item, from: int, to: int, id: nat)
    requires id < |item.bookings|
    ensures Used(item, from, to, Some(id)) + UnitsOver(from, to)(item.bookings[id]) == Used(item, from, to, None)
    ensures Used(item, from, to, None) == Total(item.bookings, UnitsOver(from, to))
  {
    TotalWithout(item.bookings, id, UnitsOver(from, to));
  }

  // A refusal for want of capacity reports how much is available. That is exactly what would have been
  // granted, unless more was asked for than the whole resource has: then the total is reported, although
  // other bookings may use part of it.
  lemma CapacityReport(item: Item, from: int, to: int, quantity: int, exclude: Option<nat>, available: int, requested: int)
    requires CapacityRefusal(item, from, to, quantity, exclude) == Some(InsufficientCapacity(available, requested))
    requires item.totalQuantity >= 1
    ensures requested == quantity && available < quantity
    ensures (forall q :: q >= 1 ==> (CapacityRefusal(item, from, to, q, exclude).None? <==> q <= available)) <==>
      quantity <= item.totalQuantity || Used(item, from, to, exclude) <= 0
  {
    assert CapacityRefusal(item, from, to, item.totalQuantity, exclude).None? <==> Used(item, from, to, exclude) <= 0;
  }

  // ---- Booking --------------------------------------------------------------------------

  // A student's booking of an item that needs approval.
  predicate AwaitsApproval(actor: Actor, needsApproval: bool) {
    actor.active && actor.role == Student && needsApproval
  }

  // An active account may book a window that lies ahead, or for staff has not ended yet, for at least
  // one unit, exactly when the resource has room.
  lemma BooksIff(item: Item, op: Op)
    requires op.OpCreateBooking?
    ensures Apply(item, op).Ok? <==>
      && op.actor.active && op.from < op.to && op.quantity >= 1
      && (op.now < op.from || (op.actor.role == Manager && op.now < op.to))
      && HasRoom(item, Booking(op.actor.id, op.from, op.to, op.quantity, BookingStatus.Pending, 1, None))
  {
  }

  // The new row holds what was asked for. It is pending for a student's booking of an approval item and
  // confirmed otherwise, and accordingly it adds its units all through its window, or nothing.
  lemma BookingIsRecorded(item: Item, op: Op)
    requires op.OpCreateBooking? && Apply(item, op).Ok?
    ensures var after, n := Step(item, op), |item.bookings|;
      && after == item.(bookings := after.bookings) && |after.bookings| == n + 1 && after.bookings[..n] == item.bookings
      && var b := after.bookings[n];
         && b.requester == op.actor.id && b.startsAt == op.from && b.endsAt == op.to && b.quantity == op.quantity
         && b.version == 1 && b.completedAt == None
         && b.status == if AwaitsApproval(op.actor, op.needsApproval) then BookingStatus.Pending else BookingStatus.Confirmed
    ensures forall t ::
      Units(Step(item, op).bookings, t) == Units(item.bookings, t)
        + if op.from <= t < op.to && !AwaitsApproval(op.actor, op.needsApproval) then op.quantity else 0
    ensures forall t ::
      Count(Step(item, op).bookings, t) == Count(item.bookings, t)
        + if op.from <= t < op.to && !AwaitsApproval(op.actor, op.needsApproval) then 1 else 0
  {
    var after := Step(item, op);
    forall t
      ensures Units(after.bookings, t) == Units(item.bookings, t)
        + if op.from <= t < op.to && !AwaitsApproval(op.actor, op.needsApproval) then op.quantity else 0
      ensures Count(after.bookings, t) == Count(item.bookings, t)
        + if op.from <= t < op.to && !AwaitsApproval(op.actor, op.needsApproval) then 1 else 0
    {
      LoadOfAppend(item.bookings, after.bookings[|item.bookings|], t);
    }
  }

  // ---- Changing -------------------------------------------------------------------------

  // The row a change asks for: what is not given stays, and neither does a quantity of zero change it.
  predicate ChangedTo(b: Booking, op: Op, c: Booking)
    requires op.OpUpdateBooking?
  {
    && c.startsAt == (if op.newFrom.Some? then op.newFrom.value else b.startsAt)
    && c.endsAt == (if op.newTo.Some? then op.newTo.value else b.endsAt)
    && c.quantity == (if op.newQuantity.Some? && op.newQuantity.value != 0 then op.newQuantity.value else b.quantity)
    && c.version == b.version + 1
    && c.requester == b.requester && c.status == b.status && c.completedAt == b.completedAt
  }

  // The resource can take the changed booking beside all the others.
  ghost predicate HasRoomBeside(item: Item, id: nat, c: Booking)
    requires id < |item.bookings|
  {
    HasRoom(item.(bookings := Without(item.bookings, id)), c)
  }

  // Its requester or a manager may change a booking that has not started, naming its current version or
  // none, to a window that lies ahead. Only a booking that holds units needs room; the status is not
  // looked at, so a booking that is over is changed as well.
  lemma ChangesIff(item: Item, op: Op, c: Booking)
    requires op.OpUpdateBooking? && op.id < |item.bookings| && ChangedTo(item.bookings[op.id], op, c)
    ensures var b := item.bookings[op.id];
      Apply(item, op).Ok? <==>
      && op.actor.active && op.now < b.startsAt && (b.requester == op.actor.id || op.actor.role == Manager)
      && (op.expected.Some? ==> op.expected.value == b.version)
      && op.now < c.startsAt < c.endsAt && c.quantity >= 1
      && (b.status.Confirmed? || b.status.Reserved? ==> HasRoomBeside(item, op.id, c))
  {
  }

  lemma ChangeIsRecorded(item: Item, op: Op, t: int)
    requires op.OpUpdateBooking? && Apply(item, op).Ok?
    ensures op.id < |item.bookings|
    ensures var after, b := Step(item, op), item.bookings[op.id];
      && |after.bookings| == |item.bookings| && ChangedTo(b, op, after.bookings[op.id])
      && after == item.(bookings := item.bookings[op.id := after.bookings[op.id]])
      && Units(after.bookings, t) == Units(item.bookings, t) - UnitsAt(t)(b) + UnitsAt(t)(after.bookings[op.id])
      && Count(after.bookings, t) == Count(item.bookings, t) - OneAt(t)(b) + OneAt(t)(after.bookings[op.id])
  {
    LoadOfReplace(item.bookings, op.id, Step(item, op).bookings[op.id], t);
  }

  // ---- Deciding -------------------------------------------------------------------------

  // A manager decides a pending booking, and approves it only while there is room.
  lemma DecidesIff(item: Item, op: Op)
    requires op.OpDecideBooking? && op.id < |item.bookings| && Storable(item.bookings[op.id])
    ensures Apply(item, op).Ok? <==>
      && op.actor.active && op.actor.role == Manager && item.bookings[op.id].status.Pending?
      && (op.approve ==> HasRoom(item, item.bookings[op.id]))
  {
    RoomIff(item, item.bookings[op.id]);
  }

  // Approval confirms it and adds its units all through its window; rejection adds nothing.
  lemma DecisionIsRecorded(item: Item, op: Op, t: int)
    requires op.OpDecideBooking? && Apply(item, op).Ok?
    ensures op.id < |item.bookings|
    ensures var after, b := Step(item, op), item.bookings[op.id];
      && after == item.(bookings := item.bookings[op.id :=
           b.(status := if op.approve then BookingStatus.Confirmed else BookingStatus.Rejected, version := b.version + 1)])
      && Units(after.bookings, t) == Units(item.bookings, t)
           + if op.approve && b.startsAt <= t < b.endsAt then b.quantity else 0
  {
    LoadOfReplace(item.bookings, op.id, Step(item, op).bookings[op.id], t);
  }

  // ---- Giving up, returning, ending -----------------------------------------------------

  // Its requester or a manager gives up a booking that has not started and is pending or holds units.
  lemma CancelsIff(item: Item, op: Op)
    requires op.OpCancelBooking? && op.id < |item.bookings|
    ensures var b := item.bookings[op.id];
      Apply(item, op).Ok? <==>
      && op.actor.active && op.now < b.startsAt && (b.requester == op.actor.id || op.actor.role == Manager)
      && (b.status.Pending? || b.status.Confirmed? || b.status.Reserved?)
  {
  }

  // What giving up and returning write; what they do to the load is ReleaseTakesLoad.
  lemma ReleaseIsRecorded(item: Item, op: Op)
    requires (op.OpCancelBooking? || op.OpReturnBooking?) && Apply(item, op).Ok?
    ensures op.id < |item.bookings|
    ensures var after, b := Step(item, op), item.bookings[op.id];
      var c := after.bookings[op.id];
      && |after.bookings| == |item.bookings| && after == item.(bookings := item.bookings[op.id := c])
      && c.requester == b.requester && c.startsAt == b.startsAt && c.quantity == b.quantity && c.version == b.version + 1
      && if op.OpCancelBooking? then c.status.Cancelled? && c.endsAt == b.endsAt && c.completedAt == b.completedAt
         else c.status.Completed? && c.endsAt == op.now && c.completedAt == Some(op.now)
  {
  }

  // The completion job finishes exactly the bookings that hold units and have ended, and leaves their
  // window and quantity. Every instant that has not passed keeps its load.
  lemma EndedAreCompleted(item: Item, op: Op)
    requires op.OpCompleteEnded? && RowsOk(item)
    ensures var after := Step(item, op);
      && after == item.(bookings := after.bookings) && |after.bookings| == |item.bookings|
      && (forall i :: 0 <= i < |item.bookings| ==>
           var b := item.bookings[i];
           after.bookings[i] ==
             if (b.status.Confirmed? || b.status.Reserved?) && b.endsAt <= op.now
             then b.(status := BookingStatus.Completed, completedAt := Some(op.now)) else b)
    ensures forall t :: op.now <= t ==> Units(Step(item, op).bookings, t) == Units(item.bookings, t)
  {
    forall t | op.now <= t ensures Units(FinishedRows(item.bookings, op.now), t) == Units(item.bookings, t) {
      EndedHoldNothing(item.bookings, op.now, t);
    }
  }

  lemma {:induction false} EndedHoldNothing(rows: seq<Booking>, now: int, t: int)
    requires now <= t
    ensures Units(FinishedRows(rows, now), t) == Units(rows, t)
  {
    if rows != [] {
      var n := |rows| - 1;
      EndedHoldNothing(rows[..n], now, t);
      LoadOfAppend(FinishedRows(rows[..n], now), Finished(rows[n], now), t);
    }
  }
}
