// Weighted totals over the rows of a table (SQL SUM and COUNT).
module Sums {

  function Total<T>(rows: seq<T>, weight: T -> int): int {
    if rows == [] then 0
    else Total(rows[..|rows| - 1], weight) + weight(rows[|rows| - 1])
  }

  // The table with one row left out (Django's exclude(pk=...)).
  function Without<T>(rows: seq<T>, i: nat): seq<T>
    requires i < |rows|
  {
    rows[..i] + rows[i + 1..]
  }

  lemma TotalAppend<T>(rows: seq<T>, row: T, weight: T -> int)
    ensures Total(rows + [row], weight) == Total(rows, weight) + weight(row)
  {
    assert (rows + [row])[..|rows|] == rows;
  }

  lemma {:induction false} TotalConcat<T>(a: seq<T>, b: seq<T>, weight: T -> int)
    ensures Total(a + b, weight) == Total(a, weight) + Total(b, weight)
  {
    if b == [] {
      assert a + b == a;
    } else {
      var n := |b| - 1;
      assert a + b == (a + b[..n]) + [b[n]];
      TotalAppend(a + b[..n], b[n], weight);
      TotalConcat(a, b[..n], weight);
    }
  }

  lemma TotalMiddle<T>(a: seq<T>, row: T, b: seq<T>, weight: T -> int)
    ensures Total(a + [row] + b, weight) == Total(a + b, weight) + weight(row)
  {
    TotalConcat(a + [row], b, weight);
    TotalAppend(a, row, weight);
    TotalConcat(a, b, weight);
  }

  lemma SplitAround<T>(rows: seq<T>, i: nat)
    requires i < |rows|
    ensures rows[..i] + [rows[i]] + rows[i + 1..] == rows
  {
  }

  lemma TotalWithout<T>(rows: seq<T>, i: nat, weight: T -> int)
    requires i < |rows|
    ensures Total(rows, weight) == Total(Without(rows, i), weight) + weight(rows[i])
  {
    SplitAround(rows, i);
    TotalMiddle(rows[..i], rows[i], rows[i + 1..], weight);
  }

  lemma TotalUpdate<T>(rows: seq<T>, i: nat, row: T, weight: T -> int)
    requires i < |rows|
    ensures Total(rows[i := row], weight) == Total(rows, weight) - weight(rows[i]) + weight(row)
    ensures Total(rows[i := row], weight) == Total(Without(rows, i), weight) + weight(row)
  {
    TotalWithout(rows, i, weight);
    TotalWithout(rows[i := row], i, weight);
    assert Without(rows[i := row], i) == Without(rows, i);
  }

  lemma {:induction false} TotalMono<T>(rows: seq<T>, low: T -> int, high: T -> int)
    requires forall i :: 0 <= i < |rows| ==> low(rows[i]) <= high(rows[i])
    ensures Total(rows, low) <= Total(rows, high)
  {
    if rows != [] {
      TotalMono(rows[..|rows| - 1], low, high);
    }
  }
}
