// Numbering of revisions: the next number is one more than the largest so far
// (backend/apps/projects/execution_services.py, lines 118-121, 272-277 and 533-535, and
// backend/apps/projects/decision_risk_services.py, lines 193-211).
module Numbering {

  // MAX(number) over the rows of a table, 0 when there are none.
  function MaxNumber<T>(rows: seq<T>, number: T -> int): nat {
    if rows == [] then 0
    else
      var rest, n := MaxNumber(rows[..|rows| - 1], number), number(rows[|rows| - 1]);
      if n > rest then n else rest
  }

  // Numbers 1..n without gaps.
  ghost predicate Numbered<T>(rows: seq<T>, number: T -> int) {
    forall i :: 0 <= i < |rows| ==> number(rows[i]) == i + 1
  }

  // Of rows numbered 1..n the largest number is n.
  lemma {:induction false} MaxOfNumbered<T>(rows: seq<T>, number: T -> int)
    requires Numbered(rows, number)
    ensures MaxNumber(rows, number) == |rows|
  {
    if rows != [] {
      MaxOfNumbered(rows[..|rows| - 1], number);
    }
  }

  // (MAX(place) or -1) + 1: a largest place of zero counts as none.
  function NextPlace<T>(rows: seq<T>, place: T -> int): nat {
    if MaxNumber(rows, place) == 0 then 0 else MaxNumber(rows, place) + 1
  }

  lemma {:induction false} MaxIsLargest<T>(rows: seq<T>, number: T -> int)
    ensures forall i :: 0 <= i < |rows| ==> number(rows[i]) <= MaxNumber(rows, number)
    ensures MaxNumber(rows, number) == 0 || exists i :: 0 <= i < |rows| && number(rows[i]) == MaxNumber(rows, number)
  {
    if rows != [] {
      MaxIsLargest(rows[..|rows| - 1], number);
    }
  }

  // So the next place is free exactly while there are no rows, or some row has a place above zero.
  lemma NextPlaceIsFreeIff<T>(rows: seq<T>, place: T -> int)
    requires forall i :: 0 <= i < |rows| ==> place(rows[i]) >= 0
    ensures (forall i :: 0 <= i < |rows| ==> place(rows[i]) != NextPlace(rows, place)) <==>
      rows == [] || exists i :: 0 <= i < |rows| && place(rows[i]) > 0
  {
    MaxIsLargest(rows, place);
    if rows != [] && MaxNumber(rows, place) == 0 {
      assert place(rows[0]) == NextPlace(rows, place);
    }
  }

  method NextNumber<T>(rows: seq<T>, number: T -> int) returns (n: int)
    ensures n == MaxNumber(rows, number) + 1
  {
    var highest := 0;
    for i := 0 to |rows|
      invariant highest == MaxNumber(rows[..i], number)
    {
      assert rows[..i + 1][..i] == rows[..i];
      if number(rows[i]) > highest {
        highest := number(rows[i]);
      }
    }
    assert rows[..|rows|] == rows;
    n := highest + 1;
  }
}
