// The outcome services as they run, on rows updated in place
// (backend/apps/notifications/outcome_services.py).
module OutcomeDesk {
  import opened Results
  import opened Outcomes

  class Desk {
    var rows: seq<Notification>

    constructor ()
      ensures rows == []
    {
      rows := [];
    }

    // Insert, or find that the unique index or the check constraint refuses; then the open
    // follow-up with that key is looked up, and there must be exactly one.
    method FollowUp(recipient: int, requirement: Requirement, key: Key, target: Target, dueAt: Option<int>, expiresAt: Option<int>)
      returns (reply: Result<nat, Refusal>, created: bool)
      modifies this
      ensures rows == FollowedUp(old(rows), recipient, requirement, key, target, dueAt, expiresAt)
      ensures created <==> rows != old(rows)
      ensures created ==> reply == Ok(|old(rows)|)
      ensures !created ==> (reply.Ok? <==> ExactlyOne(rows, recipient, key))
      ensures !created && reply.Ok? ==> reply.value < |rows| && OpenWith(rows[reply.value], recipient, key)
    {
      var found, count := 0, 0;
      for i := 0 to |rows|
        invariant 0 <= count
        invariant count == 0 <==> forall k :: 0 <= k < i ==> !OpenWith(rows[k], recipient, key)
        invariant count > 0 ==> found < i && OpenWith(rows[found], recipient, key)
        invariant count == 1 ==> forall k :: 0 <= k < i && OpenWith(rows[k], recipient, key) ==> k == found
        invariant count > 1 ==> exists k :: 0 <= k < found && OpenWith(rows[k], recipient, key)
      {
        if OpenWith(rows[i], recipient, key) {
          found, count := i, count + 1;
        }
      }
      if requirement.Informational? || (key != NoKey && count > 0) {
        return if count == 1 then Ok(found) else Err(NoFollowUp), false;
      }
      rows := rows + [Fresh(recipient, requirement, true, key, target, dueAt, expiresAt)];
      return Ok(|rows| - 1), true;
    }

    method Acknowledge(id: nat, actor: int, now: int) returns (refusal: Option<Refusal>)
      requires id < |rows|
      modifies this
      ensures match AcknowledgedBy(old(rows)[id], actor, now)
        case Ok(after) => refusal == None && rows == old(rows)[id := after]
        case Err(reason) => refusal == Some(reason) && rows == old(rows)
    {
      var locked := rows[id];
      if locked.recipient != actor { return Some(Forbidden); }
      if !locked.requirement.Acknowledgement? { return Some(NothingToAcknowledge); }
      if locked.outcome.Acknowledged? { return None; }
      if !locked.outcome.Pending? { return Some(TooLate); }
      locked := locked.(outcome := Acknowledged, acknowledgedAt := Some(now));
      rows := rows[id := locked.(active := false)];
      refusal := None;
    }

    method Expire(id: nat, now: int)
      requires id < |rows|
      modifies this
      ensures rows == old(rows)[id := ExpiredAt(old(rows)[id], now)]
    {
      if rows[id].outcome.Pending? {
        rows := rows[id := rows[id].(outcome := Expired, expiredAt := Some(now), active := false)];
      }
    }

    method Withdraw(id: nat, now: int)
      requires id < |rows|
      modifies this
      ensures rows == old(rows)[id := WithdrawnAt(old(rows)[id], now)]
    {
      if rows[id].outcome.Pending? {
        rows := rows[id := rows[id].(outcome := Unavailable, unavailableAt := Some(now), active := false)];
      }
    }

    method Reconcile(id: nat, event: Event, now: int)
      requires id < |rows|
      modifies this
      ensures rows == old(rows)[id := Reconciled(old(rows)[id], event, now)]
    {
      var locked := rows[id];
      if !locked.requirement.Action? || locked.outcome.Completed? { return; }
      if !Resolves(locked.target, event) { return; }
      locked := locked.(outcome := Completed, completedAt := Some(now), completion := Some(event));
      rows := rows[id := locked.(active := false)];
    }

    method ReconcileForEvent(target: Target, event: Event, now: int)
      modifies this
      ensures rows == AfterEvent(old(rows), target, event, now)
    {
      for i := 0 to |rows|
        invariant |rows| == |old(rows)|
        invariant forall k :: 0 <= k < i ==> rows[k] == Heard(old(rows)[k], target, event, now)
        invariant forall k :: i <= k < |rows| ==> rows[k] == old(rows)[k]
      {
        if rows[i].target == target && rows[i].outcome.Pending? && rows[i].active {
          Reconcile(i, event, now);
        }
      }
    }
  }

  ghost predicate ExactlyOne(ns: seq<Notification>, recipient: int, key: Key) {
    exists i :: 0 <= i < |ns| && OpenWith(ns[i], recipient, key)
      && forall k :: 0 <= k < |ns| && OpenWith(ns[k], recipient, key) ==> k == i
  }
}
