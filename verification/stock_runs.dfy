// The stock ledger over every run of resource operations: conservation, running balances, one
// alert round per downward crossing of the reorder level, and separation of the two kinds.
module StockRuns {
  import opened Sums
  import opened ResourceItems
  import opened BookingRuns

  function DeltaOf(): StockRow -> int { (row: StockRow) => row.delta }

  // Stock that no ledger row accounts for: what the resource held when it was created.
  function Opening(item: Item): int {
    item.stockOnHand - Total(item.ledger, DeltaOf())
  }

  // The balance after the first k ledger rows.
  function BalanceAt(item: Item, k: nat): int
    requires k <= |item.ledger|
  {
    Opening(item) + Total(item.ledger[..k], DeltaOf())
  }

  ghost predicate LedgerOk(item: Item) {
    && item.stockOnHand >= 0
    && forall k :: 0 <= k < |item.ledger| ==>
      && item.ledger[k].delta != 0
      && item.ledger[k].balanceAfter == BalanceAt(item, k + 1) >= 0
  }

  // Consumables are never booked, maintained or used on site; equipment never has ledger rows.
  predicate KindsSeparate(item: Item) {
    && (item.kind.Consumable? ==> item.bookings == [] && item.maintenance == [] && item.submissions == 0)
    && (item.kind.Equipment? ==> item.ledger == [])
  }

  lemma StepKeepsKinds(item: Item, op: Op)
    requires KindsSeparate(item)
    ensures KindsSeparate(Step(item, op))
  {
    if op.OpCompleteEnded? {
      assert item.bookings == [] ==> Step(item, op).bookings == [];
    }
  }

  lemma RecordKeepsLedger(item: Item, row: StockRow, after: Item)
    requires LedgerOk(item) && row.delta != 0 && row.balanceAfter >= 0
    requires row.balanceAfter == item.stockOnHand + row.delta == after.stockOnHand
    requires after.ledger == item.ledger + [row]
    ensures LedgerOk(after) && Opening(after) == Opening(item)
    ensures forall k :: 0 <= k <= |item.ledger| ==> BalanceAt(after, k) == BalanceAt(item, k)
    ensures BalanceAt(after, |after.ledger|) == after.stockOnHand
  {
    TotalAppend(item.ledger, row, DeltaOf());
    forall k | 0 <= k <= |item.ledger| ensures BalanceAt(after, k) == BalanceAt(item, k) {
      assert after.ledger[..k] == item.ledger[..k];
    }
    assert after.ledger[..|after.ledger|] == after.ledger;
    forall k | 0 <= k < |after.ledger|
      ensures after.ledger[k].delta != 0 && after.ledger[k].balanceAfter == BalanceAt(after, k + 1) >= 0
    {
      if k < |item.ledger| {
        assert after.ledger[k] == item.ledger[k];
      }
    }
  }

  // The call does not touch the reorder level.
  predicate KeepsLevel(op: Op) {
    op.OpUpdateItem? ==> op.change.reorderLevel.None?
  }

  lemma OtherCallsKeepStock(item: Item, op: Op)
    requires !op.OpRecordStock? || Apply(item, op).Err?
    ensures var after := Step(item, op);
      && after.ledger == item.ledger && after.stockOnHand == item.stockOnHand
      && after.lowStockRounds == item.lowStockRounds
      && (KeepsLevel(op) ==> after.reorderLevel == item.reorderLevel)
  {
  }

  lemma RecordedRow(item: Item, actor: Actor, kind: StockKind, delta: int)
    requires RecordStock(item, actor, kind, delta).Ok?
    ensures var after := RecordStock(item, actor, kind, delta).value;
      && after.ledger == item.ledger + [StockRow(kind, delta, after.stockOnHand)] && delta != 0
      && after.stockOnHand == item.stockOnHand + delta >= 0 && after.reorderLevel == item.reorderLevel
      && after.lowStockRounds == item.lowStockRounds +
           if item.stockOnHand > item.reorderLevel >= after.stockOnHand then [|after.ledger|] else []
  {
  }

  // Every call keeps the ledger an append-only record of running balances, and moves the stock
  // by exactly what it appends.
  lemma StepKeepsLedger(item: Item, op: Op)
    requires LedgerOk(item)
    ensures LedgerOk(Step(item, op))
    ensures Opening(Step(item, op)) == Opening(item)
    ensures item.ledger <= Step(item, op).ledger
  {
    var after := Step(item, op);
    if op.OpRecordStock? && RecordStock(item, op.actor, op.stockKind, op.delta).Ok? {
      RecordedRow(item, op.actor, op.stockKind, op.delta);
      RecordKeepsLedger(item, StockRow(op.stockKind, op.delta, after.stockOnHand), after);
    } else {
      OtherCallsKeepStock(item, op);
      forall k | 0 <= k <= |after.ledger| ensures BalanceAt(after, k) == BalanceAt(item, k) {}
    }
  }

  // What a new row holds: nothing has happened to it but its opening stock.
  ghost predicate Opened(item: Item) {
    && item.bookings == [] && item.maintenance == [] && item.submissions == 0 && item.stockOnHand >= 0
    && item.ledger ==
       if item.kind.Consumable? && item.stockOnHand != 0 then [StockRow(Adjustment, item.stockOnHand, item.stockOnHand)] else []
  }

  lemma CreatedIsOpened(item: Item)
    requires Created(item)
    ensures Opened(item)
  {
  }

  lemma OneRow(row: StockRow)
    ensures Total([row], DeltaOf()) == row.delta
  {
    TotalAppend([], row, DeltaOf());
    assert [] + [row] == [row];
  }

  lemma OpenedLedger(item: Item)
    requires Opened(item)
    ensures LedgerOk(item) && KindsSeparate(item)
    ensures Opening(item) == if item.kind.Consumable? then 0 else item.stockOnHand
  {
    if item.ledger != [] {
      var row := item.ledger[0];
      assert item.ledger == [row] && item.ledger[..1] == [row];
      OneRow(row);
      assert BalanceAt(item, 1) == row.balanceAfter;
    }
  }

  lemma CreatedLedger(item: Item)
    requires Created(item)
    ensures LedgerOk(item) && KindsSeparate(item)
    ensures Opening(item) == if item.kind.Consumable? then 0 else item.stockOnHand
  {
    CreatedIsOpened(item);
    OpenedLedger(item);
  }

  // Conservation over whole runs: stock minus ledger deltas is what it was at creation, zero
  // for goods created as consumables.
  lemma {:induction false} StockIsConserved(item: Item, ops: seq<Op>)
    requires Created(item)
    ensures LedgerOk(Run(item, ops)) && KindsSeparate(Run(item, ops))
    ensures Run(item, ops).stockOnHand ==
      (if item.kind.Consumable? then 0 else item.stockOnHand) + Total(Run(item, ops).ledger, DeltaOf())
    ensures Opening(Run(item, ops)) == Opening(item)
  {
    CreatedLedger(item);
    if ops != [] {
      var before := Run(item, ops[..|ops| - 1]);
      StockIsConserved(item, ops[..|ops| - 1]);
      StepKeepsLedger(before, ops[|ops| - 1]);
      StepKeepsKinds(before, ops[|ops| - 1]);
    }
  }

  // ---- Low-stock rounds -----------------------------------------------------------------

  // Ledger row k takes the balance from above the reorder level to the level or below.
  predicate Crossing(item: Item, k: nat)
    requires 1 <= k <= |item.ledger|
  {
    BalanceAt(item, k - 1) > item.reorderLevel >= BalanceAt(item, k)
  }

  ghost predicate Rising(rounds: seq<nat>) {
    forall i, j :: 0 <= i < j < |rounds| ==> rounds[i] < rounds[j]
  }

  // Since `start`, alert rounds were sent at the downward crossings and nowhere else.
  ghost predicate RoundsAreCrossings(start: Item, item: Item) {
    && start.lowStockRounds <= item.lowStockRounds
    && |start.ledger| <= |item.ledger|
    && item.reorderLevel == start.reorderLevel
    && var later := item.lowStockRounds[|start.lowStockRounds|..];
       && Rising(later)
       && (forall r :: r in later ==> |start.ledger| < r <= |item.ledger|)
       && (forall r :: |start.ledger| < r <= |item.ledger| ==> (r in later <==> Crossing(item, r)))
  }

  // A new last row: its round is appended if and only if it is a crossing.
  lemma AddRow(start: Item, item: Item, after: Item)
    requires RoundsAreCrossings(start, item)
    requires |after.ledger| == |item.ledger| + 1 && after.reorderLevel == item.reorderLevel
    requires forall k :: 0 <= k <= |item.ledger| ==> BalanceAt(after, k) == BalanceAt(item, k)
    requires after.lowStockRounds == item.lowStockRounds + if Crossing(after, |after.ledger|) then [|after.ledger|] else []
    ensures RoundsAreCrossings(start, after)
  {
    var n := |start.lowStockRounds|;
    var later, extra := item.lowStockRounds[n..], after.lowStockRounds[|item.lowStockRounds|..];
    assert after.lowStockRounds[n..] == later + extra;
    forall i | 0 <= i < |later| ensures later[i] < |after.ledger| {
      assert later[i] in later;
    }
    forall r | |start.ledger| < r <= |after.ledger|
      ensures r in after.lowStockRounds[n..] <==> Crossing(after, r)
    {
      if r <= |item.ledger| {
        assert Crossing(after, r) == Crossing(item, r);
      }
    }
  }

  lemma SameLedger(start: Item, item: Item, after: Item)
    requires RoundsAreCrossings(start, item)
    requires after.ledger == item.ledger && after.stockOnHand == item.stockOnHand
    requires after.reorderLevel == item.reorderLevel && after.lowStockRounds == item.lowStockRounds
    ensures RoundsAreCrossings(start, after)
  {
    forall r | |start.ledger| < r <= |item.ledger| ensures Crossing(after, r) == Crossing(item, r) {}
  }

  // The balance just before and just after a new row decide whether it is a crossing.
  lemma NewRowCrosses(item: Item, after: Item)
    requires |after.ledger| == |item.ledger| + 1
    requires BalanceAt(after, |item.ledger|) == BalanceAt(item, |item.ledger|)
    requires BalanceAt(after, |after.ledger|) == after.stockOnHand
    ensures Crossing(after, |after.ledger|) <==> item.stockOnHand > after.reorderLevel >= after.stockOnHand
  {
    assert item.ledger[..|item.ledger|] == item.ledger;
  }

  lemma RecordKeepsRounds(start: Item, item: Item, actor: Actor, kind: StockKind, delta: int)
    requires LedgerOk(item) && RoundsAreCrossings(start, item) && RecordStock(item, actor, kind, delta).Ok?
    ensures RoundsAreCrossings(start, RecordStock(item, actor, kind, delta).value)
  {
    var after := RecordStock(item, actor, kind, delta).value;
    RecordedRow(item, actor, kind, delta);
    RecordKeepsLedger(item, StockRow(kind, delta, after.stockOnHand), after);
    NewRowCrosses(item, after);
    AddRow(start, item, after);
  }

  lemma StepKeepsRounds(start: Item, item: Item, op: Op)
    requires LedgerOk(item) && RoundsAreCrossings(start, item) && KeepsLevel(op)
    ensures RoundsAreCrossings(start, Step(item, op))
  {
    if op.OpRecordStock? && RecordStock(item, op.actor, op.stockKind, op.delta).Ok? {
      RecordKeepsRounds(start, item, op.actor, op.stockKind, op.delta);
    } else {
      OtherCallsKeepStock(item, op);
      SameLedger(start, item, Step(item, op));
    }
  }

  // With a fixed reorder level, rounds and downward crossings are the same thing.
  lemma {:induction false} OneRoundPerCrossing(item: Item, ops: seq<Op>)
    requires Created(item) && forall k :: 0 <= k < |ops| ==> KeepsLevel(ops[k])
    ensures RoundsAreCrossings(item, Run(item, ops))
  {
    if ops == [] {
      assert item.lowStockRounds[|item.lowStockRounds|..] == [];
    } else {
      OneRoundPerCrossing(item, ops[..|ops| - 1]);
      StockIsConserved(item, ops[..|ops| - 1]);
      StepKeepsRounds(item, Run(item, ops[..|ops| - 1]), ops[|ops| - 1]);
    }
  }

  // A later round stands on a crossing, after every earlier round.
  lemma LaterRound(start: Item, item: Item, i: nat, j: nat)
    requires RoundsAreCrossings(start, item) && i < j < |item.lowStockRounds|
    requires |start.lowStockRounds| <= 1
    requires forall k :: 0 <= k < |start.lowStockRounds| ==> start.lowStockRounds[k] <= |start.ledger|
    ensures item.lowStockRounds[i] < item.lowStockRounds[j] <= |item.ledger|
    ensures Crossing(item, item.lowStockRounds[j])
  {
    var n := |start.lowStockRounds|;
    var later := item.lowStockRounds[n..];
    assert item.lowStockRounds[j] == later[j - n];
    assert later[j - n] in later;
    if i >= n {
      assert item.lowStockRounds[i] == later[i - n];
    } else {
      assert item.lowStockRounds[i] == start.lowStockRounds[i];
    }
  }

  // Hence two rounds are always separated by a balance above the level.
  lemma RoundsAreSeparated(item: Item, ops: seq<Op>, i: nat, j: nat)
    requires Created(item) && forall k :: 0 <= k < |ops| ==> KeepsLevel(ops[k])
    requires i < j < |Run(item, ops).lowStockRounds|
    ensures var after := Run(item, ops);
      exists k :: after.lowStockRounds[i] <= k < after.lowStockRounds[j] <= |after.ledger|
        && BalanceAt(after, k) > after.reorderLevel
  {
    OneRoundPerCrossing(item, ops);
    var after := Run(item, ops);
    LaterRound(item, after, i, j);
    var k := after.lowStockRounds[j] - 1;
    assert BalanceAt(after, k) > after.reorderLevel;
  }
}
