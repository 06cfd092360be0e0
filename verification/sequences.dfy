// Lists as services use them: cutting a query to its first rows, and sorting.
module Sequences {
  import opened Sums

  // queryset[:limit]
  function First<T>(rows: seq<T>, limit: nat): seq<T> {
    if |rows| <= limit then rows else rows[..limit]
  }

  ghost predicate NoRepeats<T>(rows: seq<T>) {
    forall i, j :: 0 <= i < j < |rows| ==> rows[i] != rows[j]
  }

  // ---- Sorting --------------------------------------------------------------------------

  type Order<!T> = (T, T) -> bool

  ghost predicate Ordered<T>(rows: seq<T>, order: Order<T>) {
    forall i, j :: 0 <= i < j < |rows| ==> order(rows[i], rows[j])
  }

  // Any two rows compare, and comparing chains.
  ghost predicate TotalOrder<T(!new)>(order: Order<T>) {
    && (forall a, b :: order(a, b) || order(b, a))
    && (forall a, b, c :: order(a, b) && order(b, c) ==> order(a, c))
  }

  function Insert<T>(rows: seq<T>, row: T, order: Order<T>): (r: seq<T>)
    ensures multiset(r) == multiset(rows) + multiset{row}
  {
    if rows == [] || order(rows[|rows| - 1], row) then rows + [row]
    else
      assert rows == rows[..|rows| - 1] + [rows[|rows| - 1]];
      Insert(rows[..|rows| - 1], row, order) + [rows[|rows| - 1]]
  }

  // Python's sorted(): rows that compare equal keep their order.
  function Sort<T>(rows: seq<T>, order: Order<T>): (r: seq<T>)
    ensures multiset(r) == multiset(rows)
  {
    if rows == [] then []
    else
      assert rows == rows[..|rows| - 1] + [rows[|rows| - 1]];
      Insert(Sort(rows[..|rows| - 1], order), rows[|rows| - 1], order)
  }

  lemma {:induction false} InsertOrdered<T(!new)>(rows: seq<T>, row: T, order: Order<T>)
    requires Ordered(rows, order) && TotalOrder(order)
    ensures Ordered(Insert(rows, row, order), order)
  {
    if rows == [] {
    } else if order(rows[|rows| - 1], row) {
      forall i | 0 <= i < |rows| ensures order(rows[i], row) {
        assert i < |rows| - 1 ==> order(rows[i], rows[|rows| - 1]);
      }
    } else {
      var last := rows[|rows| - 1];
      InsertOrdered(rows[..|rows| - 1], row, order);
      var r := Insert(rows[..|rows| - 1], row, order);
      forall i | 0 <= i < |r| ensures order(r[i], last) {
        assert r[i] in multiset(r);
        assert r[i] in rows[..|rows| - 1] || r[i] == row;
      }
    }
  }

  lemma {:induction false} SortOrdered<T(!new)>(rows: seq<T>, order: Order<T>)
    requires TotalOrder(order)
    ensures Ordered(Sort(rows, order), order)
  {
    if rows != [] {
      SortOrdered(rows[..|rows| - 1], order);
      InsertOrdered(Sort(rows[..|rows| - 1], order), rows[|rows| - 1], order);
    }
  }

  lemma {:induction false} InsertTotal<T>(rows: seq<T>, row: T, order: Order<T>, weight: T -> int)
    ensures Total(Insert(rows, row, order), weight) == Total(rows, weight) + weight(row)
  {
    if rows == [] || order(rows[|rows| - 1], row) {
      TotalAppend(rows, row, weight);
    } else {
      InsertTotal(rows[..|rows| - 1], row, order, weight);
      TotalAppend(Insert(rows[..|rows| - 1], row, order), rows[|rows| - 1], weight);
    }
  }

  lemma {:induction false} SortTotal<T>(rows: seq<T>, order: Order<T>, weight: T -> int)
    ensures Total(Sort(rows, order), weight) == Total(rows, weight)
  {
    if rows != [] {
      SortTotal(rows[..|rows| - 1], order, weight);
      InsertTotal(Sort(rows[..|rows| - 1], order), rows[|rows| - 1], order, weight);
    }
  }
}
