// The places of a project's milestones: each new one is to come last
// (backend/apps/projects/execution_services.py, lines 118-131 and 193-211).
module Ordering {
  import opened Results
  import opened Numbering

  function Place(): nat -> int { (place: nat) => place }

  // A new milestone's place, unless the unique constraint unique_project_milestone_order rejects it.
  function Added(places: seq<nat>): Option<seq<nat>> {
    if NextPlace(places, Place()) in places then None else Some(places + [NextPlace(places, Place())])
  }

  // The list names every milestone once.
  predicate NamesEach(places: seq<nat>, order: seq<nat>) {
    && |order| == |places| && (forall k :: 0 <= k < |order| ==> order[k] < |places|)
    && (forall j, k :: 0 <= j < k < |order| ==> order[j] != order[k])
  }

  // reorder_milestones over all milestones of the project gives them the places 0, 1, ... in the order
  // asked for: milestone order[k] comes k-th.
  function Reordered(places: seq<nat>, order: seq<nat>): seq<nat>
    requires NamesEach(places, order)
  {
    seq(|places|, i requires 0 <= i < |places| => PlaceIn(order, i))
  }

  function PlaceIn(order: seq<nat>, id: nat): nat {
    if order == [] || order[0] == id then 0 else PlaceIn(order[1..], id) + 1
  }

  lemma {:induction false} PlaceInIs(order: seq<nat>, k: nat)
    requires k < |order| && forall i, j :: 0 <= i < j < |order| ==> order[i] != order[j]
    ensures PlaceIn(order, order[k]) == k
  {
    if k > 0 {
      assert order[1..][k - 1] == order[k];
      PlaceInIs(order[1..], k - 1);
    }
  }

  lemma ReorderedPlaces(places: seq<nat>, order: seq<nat>, k: nat)
    requires NamesEach(places, order) && k < |order|
    ensures |Reordered(places, order)| == |places| && Reordered(places, order)[order[k]] == k
  {
    PlaceInIs(order, k);
  }

  // A milestone is added exactly to a project without milestones, or one in which some milestone is not in
  // the first place; it comes last.
  lemma AddsIff(places: seq<nat>)
    ensures Added(places).Some? <==> places == [] || exists i :: 0 <= i < |places| && places[i] > 0
    ensures Added(places).Some? ==>
      && |Added(places).value| == |places| + 1 && Added(places).value[..|places|] == places
      && forall i :: 0 <= i < |places| ==> places[i] < Added(places).value[|places|]
  {
    NextPlaceIsFreeIff(places, Place());
    MaxIsLargest(places, Place());
    forall i | 0 <= i < |places| ensures Place()(places[i]) == places[i] {}
    if NextPlace(places, Place()) in places {
      var i :| 0 <= i < |places| && places[i] == NextPlace(places, Place());
      assert Place()(places[i]) == NextPlace(places, Place());
    }
    if i :| 0 <= i < |places| && Place()(places[i]) == NextPlace(places, Place()) {
      assert places[i] in places;
    }
  }

  datatype Call = AddCall | ReorderCall(order: seq<nat>)

  function Step(places: seq<nat>, c: Call): seq<nat> {
    match c
    case AddCall => if Added(places).Some? then Added(places).value else places
    case ReorderCall(order) =>
      if NamesEach(places, order) then Reordered(places, order) else places
  }

  function Run(calls: seq<Call>): seq<nat> {
    if calls == [] then [] else Step(Run(calls[..|calls| - 1]), calls[|calls| - 1])
  }

  // So a project that starts without milestones gets one, in the first place, and never a second.
  lemma {:induction false} OneMilestonePerProject(calls: seq<Call>)
    ensures Run(calls) == [] || Run(calls) == [0]
    ensures AddCall in calls ==> Run(calls) == [0]
  {
    if calls != [] {
      var n := |calls| - 1;
      OneMilestonePerProject(calls[..n]);
      AddsIff(Run(calls[..n]));
      assert calls == calls[..n] + [calls[n]];
      if calls[n].AddCall? {
        var none: seq<nat> := [];
        assert NextPlace(none, Place()) == 0;
      }
    }
  }
}
