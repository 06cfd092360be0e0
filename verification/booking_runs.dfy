// Capacity over every run of resource operations: the number of live bookings never exceeds
// the total quantity, and neither do their units as long as no call lowers that total.
module BookingRuns {
  import opened Results
  import opened Sums
  import opened Bookings
  import opened Sweep
  import opened ResourceItems

  ghost predicate RowsOk(item: Item) {
    && AllStorable(item.bookings)
    && forall i :: 0 <= i < |item.bookings| && item.bookings[i].completedAt.Some? ==> item.bookings[i].status.Completed?
  }

  ghost predicate CountFits(rows: seq<Booking>, total: int) {
    total >= 1 && forall t :: Count(rows, t) <= total
  }

  ghost predicate UnitsFit(rows: seq<Booking>, total: int) {
    forall t :: Units(rows, t) <= total
  }

  // A granted booking: what the overlapping rows use leaves room for it all through its window.
  lemma GrantFits(others: seq<Booking>, b: Booking, total: int, t: int)
    requires AllStorable(others) && Storable(b)
    requires b.quantity <= total - Total(others, UnitsOver(b.startsAt, b.endsAt))
    requires Count(others, t) <= total
    ensures Count(others, t) + OneAt(t)(b) <= total
    ensures Units(others, t) <= total ==> Units(others, t) + UnitsAt(t)(b) <= total
  {
    if b.startsAt <= t < b.endsAt {
      WindowBoundsLoad(others, b.startsAt, b.endsAt, t);
    }
  }

  lemma LoadOfAppend(rows: seq<Booking>, b: Booking, t: int)
    ensures Count(rows + [b], t) == Count(rows, t) + OneAt(t)(b)
    ensures Units(rows + [b], t) == Units(rows, t) + UnitsAt(t)(b)
  {
    TotalAppend(rows, b, OneAt(t));
    TotalAppend(rows, b, UnitsAt(t));
  }

  lemma LoadOfReplace(rows: seq<Booking>, i: nat, b: Booking, t: int)
    requires i < |rows|
    ensures Count(rows, t) == Count(Without(rows, i), t) + OneAt(t)(rows[i])
    ensures Units(rows, t) == Units(Without(rows, i), t) + UnitsAt(t)(rows[i])
    ensures Count(rows[i := b], t) == Count(Without(rows, i), t) + OneAt(t)(b)
    ensures Units(rows[i := b], t) == Units(Without(rows, i), t) + UnitsAt(t)(b)
  {
    TotalWithout(rows, i, OneAt(t));
    TotalWithout(rows, i, UnitsAt(t));
    TotalUpdate(rows, i, b, OneAt(t));
    TotalUpdate(rows, i, b, UnitsAt(t));
  }

  lemma AppendKeeps(rows: seq<Booking>, b: Booking, total: int)
    requires AllStorable(rows) && Storable(b) && CountFits(rows, total)
    requires Live(b) ==> b.quantity <= total - Total(rows, UnitsOver(b.startsAt, b.endsAt))
    ensures CountFits(rows + [b], total)
    ensures UnitsFit(rows, total) ==> UnitsFit(rows + [b], total)
  {
    forall t
      ensures Count(rows + [b], t) <= total
      ensures Units(rows, t) <= total ==> Units(rows + [b], t) <= total
    {
      LoadOfAppend(rows, b, t);
      if Live(b) {
        GrantFits(rows, b, total, t);
      }
    }
  }

  lemma ReplaceKeeps(rows: seq<Booking>, i: nat, b: Booking, total: int)
    requires i < |rows| && AllStorable(rows) && Storable(b) && CountFits(rows, total)
    requires Live(b) ==> b.quantity <= total - Total(Without(rows, i), UnitsOver(b.startsAt, b.endsAt))
    ensures CountFits(rows[i := b], total)
    ensures UnitsFit(rows, total) ==> UnitsFit(rows[i := b], total)
  {
    var changed := rows[i := b];
    forall t
      ensures Count(changed, t) <= total
      ensures Units(rows, t) <= total ==> Units(changed, t) <= total
    {
      LoadOfReplace(rows, i, b, t);
      if Live(b) {
        GrantFits(Without(rows, i), b, total, t);
      }
    }
  }

  lemma {:induction false} FinishedLoad(rows: seq<Booking>, now: int, t: int)
    requires AllStorable(rows)
    ensures Count(FinishedRows(rows, now), t) <= Count(rows, t)
    ensures Units(FinishedRows(rows, now), t) <= Units(rows, t)
  {
    if rows != [] {
      var n := |rows| - 1;
      FinishedLoad(rows[..n], now, t);
      LoadOfAppend(FinishedRows(rows[..n], now), Finished(rows[n], now), t);
    }
  }

  ghost predicate BookingsFit(item: Item) {
    RowsOk(item) && CountFits(item.bookings, item.totalQuantity)
  }

  // What a granted window leaves free is at least the quantity asked for.
  lemma GrantedMeansFree(item: Item, from: int, to: int, quantity: int, exclude: Option<nat>)
    requires CapacityRefusal(item, from, to, quantity, exclude).None?
    requires quantity >= 1
    ensures quantity <= item.totalQuantity - Used(item, from, to, exclude)
  {
  }

  lemma CreateKeeps(item: Item, actor: Actor, now: int, from: int, to: int, q: int, approval: bool)
    requires BookingsFit(item) && CreateBooking(item, actor, now, from, to, q, approval).Ok?
    ensures var after := CreateBooking(item, actor, now, from, to, q, approval).value;
      BookingsFit(after) && (UnitsFit(item.bookings, item.totalQuantity) ==> UnitsFit(after.bookings, item.totalQuantity))
  {
    var after := CreateBooking(item, actor, now, from, to, q, approval).value;
    GrantedMeansFree(item, from, to, q, None);
    AppendKeeps(item.bookings, after.bookings[|item.bookings|], item.totalQuantity);
  }

  lemma UpdateKeeps(item: Item, actor: Actor, now: int, id: nat, from: Option<int>, to: Option<int>,
                    q: Option<int>, version: Option<int>)
    requires BookingsFit(item) && UpdateBooking(item, actor, now, id, from, to, q, version).Ok?
    ensures var after := UpdateBooking(item, actor, now, id, from, to, q, version).value;
      BookingsFit(after) && (UnitsFit(item.bookings, item.totalQuantity) ==> UnitsFit(after.bookings, item.totalQuantity))
  {
    var after := UpdateBooking(item, actor, now, id, from, to, q, version).value;
    var b := after.bookings[id];
    if Live(b) {
      GrantedMeansFree(item, b.startsAt, b.endsAt, b.quantity, Some(id));
    }
    ReplaceKeeps(item.bookings, id, b, item.totalQuantity);
  }

  lemma DecideKeeps(item: Item, actor: Actor, id: nat, approve: bool)
    requires BookingsFit(item) && DecideBooking(item, actor, id, approve).Ok?
    ensures var after := DecideBooking(item, actor, id, approve).value;
      BookingsFit(after) && (UnitsFit(item.bookings, item.totalQuantity) ==> UnitsFit(after.bookings, item.totalQuantity))
  {
    var after := DecideBooking(item, actor, id, approve).value;
    var b := item.bookings[id];
    if approve {
      GrantedMeansFree(item, b.startsAt, b.endsAt, b.quantity, None);
      TotalWithout(item.bookings, id, UnitsOver(b.startsAt, b.endsAt));
    }
    ReplaceKeeps(item.bookings, id, after.bookings[id], item.totalQuantity);
  }

  lemma CompleteKeeps(item: Item, now: int)
    requires BookingsFit(item)
    ensures var after := CompleteEnded(item, now).value;
      BookingsFit(after) && (UnitsFit(item.bookings, item.totalQuantity) ==> UnitsFit(after.bookings, item.totalQuantity))
    ensures forall i :: 0 <= i < |item.bookings| ==>
      (var b := CompleteEnded(item, now).value.bookings[i]; Live(b) ==> now < b.endsAt)
  {
    var rows := FinishedRows(item.bookings, now);
    forall t
      ensures Count(rows, t) <= item.totalQuantity
      ensures Units(item.bookings, t) <= item.totalQuantity ==> Units(rows, t) <= item.totalQuantity
    {
      FinishedLoad(item.bookings, now, t);
    }
  }

  // A call that asks for a smaller total than the current one.
  predicate Lowers(item: Item, op: Op) {
    op.OpUpdateItem? && op.change.totalQuantity.Some? && op.change.totalQuantity.value < item.totalQuantity
  }

  // Ending a booking early, or giving it up, leaves no more load than before.
  lemma ReleaseKeeps(item: Item, op: Op)
    requires BookingsFit(item) && Apply(item, op).Ok? && (op.OpCancelBooking? || op.OpReturnBooking?)
    ensures BookingsFit(Step(item, op))
    ensures UnitsFit(item.bookings, item.totalQuantity) ==> UnitsFit(Step(item, op).bookings, Step(item, op).totalQuantity)
  {
    ReplaceKeeps(item.bookings, op.id, Step(item, op).bookings[op.id], item.totalQuantity);
  }

  // A new total is not below the number of bookings at any instant.
  lemma EditKeeps(item: Item, op: Op)
    requires BookingsFit(item) && Apply(item, op).Ok? && op.OpUpdateItem?
    ensures BookingsFit(Step(item, op))
    ensures UnitsFit(item.bookings, item.totalQuantity) && !Lowers(item, op) ==>
      UnitsFit(Step(item, op).bookings, Step(item, op).totalQuantity)
  {
    if op.change.totalQuantity.Some? {
      SafeMinimumIsLeast(item.bookings, op.change.totalQuantity.value);
    }
  }

  // Every call keeps the count bound; every call that does not lower the total keeps the unit bound.
  lemma StepKeepsBookings(item: Item, op: Op)
    requires BookingsFit(item)
    ensures BookingsFit(Step(item, op))
    ensures UnitsFit(item.bookings, item.totalQuantity) && !Lowers(item, op) ==>
      UnitsFit(Step(item, op).bookings, Step(item, op).totalQuantity)
  {
    if Apply(item, op).Ok? {
      match op
      case OpCreateBooking(a, now, from, to, q, approval) => CreateKeeps(item, a, now, from, to, q, approval);
      case OpUpdateBooking(a, now, id, from, to, q, v) => UpdateKeeps(item, a, now, id, from, to, q, v);
      case OpCancelBooking(_, _, _) => ReleaseKeeps(item, op);
      case OpReturnBooking(_, _, _) => ReleaseKeeps(item, op);
      case OpDecideBooking(a, id, approve) => DecideKeeps(item, a, id, approve);
      case OpCompleteEnded(now) => CompleteKeeps(item, now);
      case OpUpdateItem(_, _) => EditKeeps(item, op);
      case _ =>
    }
  }

  // The items a resource passes through, starting from its creation.
  ghost predicate Created(item: Item) {
    exists a, k, s, q, stock, level, i, n :: CreateItem(a, k, s, q, stock, level, i, n) == Ok(item)
  }

  lemma CreatedFits(item: Item)
    requires Created(item)
    ensures BookingsFit(item) && UnitsFit(item.bookings, item.totalQuantity)
  {
  }

  // At every instant, after any run, at most totalQuantity live bookings hold the resource.
  lemma {:induction false} CapacityNeverExceeded(item: Item, ops: seq<Op>)
    requires Created(item)
    ensures BookingsFit(Run(item, ops))
    ensures forall t :: Count(Run(item, ops).bookings, t) <= Run(item, ops).totalQuantity
  {
    if ops == [] {
      CreatedFits(item);
    } else {
      CapacityNeverExceeded(item, ops[..|ops| - 1]);
      StepKeepsBookings(Run(item, ops[..|ops| - 1]), ops[|ops| - 1]);
    }
  }

  ghost predicate NeverLowers(item: Item, ops: seq<Op>) {
    forall k :: 0 <= k < |ops| ==> !Lowers(Run(item, ops[..k]), ops[k])
  }

  // If no call lowers the total, the units held at any instant never exceed it either.
  lemma {:induction false} UnitsNeverExceeded(item: Item, ops: seq<Op>)
    requires Created(item) && NeverLowers(item, ops)
    ensures forall t :: Units(Run(item, ops).bookings, t) <= Run(item, ops).totalQuantity
  {
    CreatedFits(item);
    if ops != [] {
      var rest := ops[..|ops| - 1];
      forall k | 0 <= k < |rest| ensures !Lowers(Run(item, rest[..k]), rest[k]) {
        assert rest[..k] == ops[..k];
      }
      UnitsNeverExceeded(item, rest);
      CapacityNeverExceeded(item, rest);
      StepKeepsBookings(Run(item, rest), ops[|ops| - 1]);
    }
  }

  // The sweep behind a quantity change counts bookings, not units. An accepted change keeps the
  // unit bound exactly when the new total covers the units held at each live booking's start.
  lemma LoweringKeepsUnitsIff(item: Item, actor: Actor, change: ItemChange)
    requires BookingsFit(item) && UpdateItem(item, actor, change).Ok?
    ensures var after := UpdateItem(item, actor, change).value;
      UnitsFit(after.bookings, after.totalQuantity) <==>
      forall i :: 0 <= i < |item.bookings| && Live(item.bookings[i]) ==>
        Units(item.bookings, item.bookings[i].startsAt) <= after.totalQuantity
  {
    var after := UpdateItem(item, actor, change).value;
    if forall i :: 0 <= i < |item.bookings| && Live(item.bookings[i]) ==>
        Units(item.bookings, item.bookings[i].startsAt) <= after.totalQuantity {
      forall t ensures Units(after.bookings, t) <= after.totalQuantity {
        var i := LoadPeaksAtAStart(item.bookings, t);
      }
    }
  }

  // One booking of five units, and the total lowered from five to one: accepted, and overbooked.
  lemma LoweringCanOverbook()
    ensures exists item, op, t ::
      && BookingsFit(item) && UnitsFit(item.bookings, item.totalQuantity)
      && Apply(item, op).Ok?
      && Units(Step(item, op).bookings, t) > Step(item, op).totalQuantity
  {
    var b := Booking(7, 10, 20, 5, Confirmed, 1, None);
    var item := Item(Equipment, Status.Available, 5, 1, 0, 0, None, None, [b], [], 0, [], []);
    var op := OpUpdateItem(Actor(1, Manager, true), ItemChange(Some(1), Some(1), None, None, None, None, None));
    assert [b][..0] == [];
    forall t ensures Count([b], t) <= 1 && Units([b], t) <= 5 {
      assert Count([b], t) == Count([b][..0], t) + OneAt(t)(b);
      assert Units([b], t) == Units([b][..0], t) + UnitsAt(t)(b);
    }
    SafeMinimumIsLeast([b], 1);
    assert Units([b], 10) == Units([b][..0], 10) + UnitsAt(10)(b);
    assert BookingsFit(item) && UnitsFit(item.bookings, item.totalQuantity);
    assert Apply(item, op).Ok?;
    assert Units(Step(item, op).bookings, 10) > Step(item, op).totalQuantity;
  }
}
