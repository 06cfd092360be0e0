// Chasing open follow-ups: reminders that repeat up to a limit, and one escalation
// (backend/apps/notifications/tasks.py, lines 246-315).
module FollowUps {
  import opened Clock
  import opened Results
  import S = Sequences
  import opened Outcomes
  import opened Policies

  // The event name the job passes to the action resolvers.
  const SCHEDULED: Event := OtherEvent("scheduled.reconcile")

  // The policy of the project a record belongs to.
  type PolicyOf = Target -> Policy

  predicate ReminderDue(n: Notification, p: Policy, now: int) {
    && n.dueAt.Some? && n.dueAt.value - p.lead * MINUTE <= now
    && (n.lastRemindedAt.None? || n.lastRemindedAt.value + p.repeatEvery * MINUTE <= now)
    && n.reminderCount < p.max
  }

  function Reminded(n: Notification, p: Policy, now: int): Notification {
    if ReminderDue(n, p, now) then n.(reminderCount := n.reminderCount + 1, lastRemindedAt := Some(now)) else n
  }

  predicate EscalationDue(n: Notification, p: Policy, now: int) {
    n.dueAt.Some? && n.dueAt.value + p.delay * MINUTE <= now && n.escalationLevel == 0
  }

  function Escalated(n: Notification, p: Policy, now: int): Notification {
    if EscalationDue(n, p, now) then n.(escalationLevel := 1, lastEscalatedAt := Some(now)) else n
  }

  // What a sweep does to one open follow-up.
  function Chased(n: Notification, p: Policy, now: int): Notification {
    if Outcomes.Reconciled(n, SCHEDULED, now).outcome.Completed? then Outcomes.Reconciled(n, SCHEDULED, now)
    else if n.expiresAt.Some? && n.expiresAt.value <= now then ExpiredAt(n, now)
    else if n.dueAt.None? then n
    else Escalated(Reminded(n, p, now), p, now)
  }

  // How many changes the job counts for it.
  function Work(n: Notification, p: Policy, now: int): nat {
    if Outcomes.Reconciled(n, SCHEDULED, now).outcome.Completed? then 1
    else if n.expiresAt.Some? && n.expiresAt.value <= now then 1
    else if n.dueAt.None? then 0
    else (if ReminderDue(n, p, now) then 1 else 0) + (if EscalationDue(n, p, now) then 1 else 0)
  }

  // ---- The batch ------------------------------------------------------------------------

  function BatchSize(limit: Option<int>, configured: int): (size: nat)
    ensures 1 <= size && (configured >= 1 ==> size <= configured)
  {
    var asked := if limit.Some? && limit.value != 0 then limit.value else configured;
    var least := if asked < configured then asked else configured;
    if least > 1 then least else 1
  }

  predicate Open(n: Notification) { n.active && n.outcome.Pending? }

  // Earlier due dates first, no due date last, then by primary key.
  predicate Before(ns: seq<Notification>, a: nat, b: nat)
    requires a < |ns| && b < |ns|
  {
    var x, y := ns[a].dueAt, ns[b].dueAt;
    if x == y then a < b else x.Some? && (y.None? || x.value < y.value)
  }

  predicate Within(ids: seq<nat>, k: nat) {
    forall i :: 0 <= i < |ids| ==> ids[i] < k
  }

  function Insert(ns: seq<Notification>, id: nat, ids: seq<nat>): (r: seq<nat>)
    requires id < |ns| && Within(ids, |ns|)
    ensures Within(r, |ns|)
  {
    if ids == [] then [id]
    else if Before(ns, id, ids[0]) then [id] + ids
    else [ids[0]] + Insert(ns, id, ids[1..])
  }

  // The open follow-ups among the first k, in the job's order.
  function InOrder(ns: seq<Notification>, k: nat): (r: seq<nat>)
    requires k <= |ns|
    ensures Within(r, |ns|)
  {
    if k == 0 then []
    else if Open(ns[k - 1]) then Insert(ns, k - 1, InOrder(ns, k - 1))
    else InOrder(ns, k - 1)
  }

  function Batch(ns: seq<Notification>, size: nat): (r: seq<nat>)
    ensures Within(r, |ns|)
  {
    S.First(InOrder(ns, |ns|), size)
  }

  function Swept(ns: seq<Notification>, ids: seq<nat>, policyOf: PolicyOf, now: int): (r: seq<Notification>)
    ensures |r| == |ns|
    ensures forall i :: 0 <= i < |ns| ==> r[i] == if i in ids then Chased(ns[i], policyOf(ns[i].target), now) else ns[i]
  {
    seq(|ns|, i requires 0 <= i < |ns| => if i in ids then Chased(ns[i], policyOf(ns[i].target), now) else ns[i])
  }

  function Sweep(ns: seq<Notification>, policyOf: PolicyOf, now: int, size: nat): seq<Notification> {
    Swept(ns, Batch(ns, size), policyOf, now)
  }

  // ---- Who is reached -------------------------------------------------------------------

  ghost predicate Ordered(ns: seq<Notification>, ids: seq<nat>) {
    Within(ids, |ns|) && forall i, j :: 0 <= i < j < |ids| ==> Before(ns, ids[i], ids[j])
  }

  lemma {:induction false} InsertAdds(ns: seq<Notification>, id: nat, ids: seq<nat>)
    requires id < |ns| && Within(ids, |ns|)
    ensures forall other :: other in Insert(ns, id, ids) <==> other == id || other in ids
  {
    if ids != [] && !Before(ns, id, ids[0]) {
      assert ids == [ids[0]] + ids[1..];
      InsertAdds(ns, id, ids[1..]);
    }
  }

  lemma BeforeChains(ns: seq<Notification>, a: nat, b: nat, c: nat)
    requires a < |ns| && b < |ns| && c < |ns|
    ensures Before(ns, a, b) && Before(ns, b, c) ==> Before(ns, a, c)
    ensures a != b ==> (Before(ns, a, b) <==> !Before(ns, b, a))
  {
  }

  // Putting a first element that comes before all others.
  lemma Headed(ns: seq<Notification>, first: nat, rest: seq<nat>)
    requires first < |ns| && Ordered(ns, rest)
    requires forall other: nat :: other in rest ==> other < |ns| && Before(ns, first, other)
    ensures Ordered(ns, [first] + rest)
  {
    forall j | 0 <= j < |rest| ensures Before(ns, first, rest[j]) {
      assert rest[j] in rest;
    }
  }

  lemma {:induction false} InsertKeeps(ns: seq<Notification>, id: nat, ids: seq<nat>)
    requires id < |ns| && Ordered(ns, ids) && id !in ids
    ensures Ordered(ns, Insert(ns, id, ids))
  {
    if ids != [] {
      forall other: nat | other in ids ensures other < |ns| && (Before(ns, id, ids[0]) ==> Before(ns, id, other)) {
        BeforeChains(ns, id, ids[0], other);
      }
      if Before(ns, id, ids[0]) {
        Headed(ns, id, ids);
      } else {
        InsertKeeps(ns, id, ids[1..]);
        InsertAdds(ns, id, ids[1..]);
        BeforeChains(ns, id, ids[0], id);
        Headed(ns, ids[0], Insert(ns, id, ids[1..]));
      }
    }
  }

  lemma {:induction false} InOrderHas(ns: seq<Notification>, k: nat, id: nat)
    requires k <= |ns|
    ensures id in InOrder(ns, k) <==> id < k && Open(ns[id])
  {
    if k > 0 {
      InOrderHas(ns, k - 1, id);
      if Open(ns[k - 1]) {
        InsertAdds(ns, k - 1, InOrder(ns, k - 1));
      }
    }
  }

  lemma {:induction false} InOrderSorted(ns: seq<Notification>, k: nat)
    requires k <= |ns|
    ensures Ordered(ns, InOrder(ns, k))
  {
    if k > 0 {
      InOrderSorted(ns, k - 1);
      if Open(ns[k - 1]) {
        InOrderHas(ns, k - 1, k - 1);
        InsertKeeps(ns, k - 1, InOrder(ns, k - 1));
      }
    }
  }

  // The query lists exactly the open follow-ups, in order.
  lemma InOrderIsOrdered(ns: seq<Notification>, k: nat)
    requires k <= |ns|
    ensures Ordered(ns, InOrder(ns, k))
    ensures forall id: nat :: id in InOrder(ns, k) <==> id < k && Open(ns[id])
  {
    InOrderSorted(ns, k);
    forall id: nat ensures id in InOrder(ns, k) <==> id < k && Open(ns[id]) {
      InOrderHas(ns, k, id);
    }
  }

  // The open follow-ups that come before id.
  ghost function Ahead(ns: seq<Notification>, id: nat): set<nat>
    requires id < |ns|
  {
    set j: nat | j < |ns| && Open(ns[j]) && Before(ns, j, id)
  }

  ghost function Members(ids: seq<nat>): set<nat> {
    set id | id in ids
  }

  lemma {:induction false} DistinctSize(ids: seq<nat>)
    requires S.NoRepeats(ids)
    ensures |Members(ids)| == |ids|
  {
    if ids == [] {
      assert Members(ids) == {};
    } else {
      var front, last := ids[..|ids| - 1], ids[|ids| - 1];
      DistinctSize(front);
      assert last !in Members(front);
      assert Members(ids) == Members(front) + {last} by {
        assert ids == front + [last];
      }
    }
  }

  lemma AheadIsPrefix(ns: seq<Notification>, p: nat)
    requires p < |InOrder(ns, |ns|)|
    ensures |Ahead(ns, InOrder(ns, |ns|)[p])| == p
  {
    var ids := InOrder(ns, |ns|);
    InOrderIsOrdered(ns, |ns|);
    var front := ids[..p];
    DistinctSize(front);
    forall j: nat ensures j in Ahead(ns, ids[p]) <==> j in Members(front) {
      AheadOrNot(ns, ids, p, j);
    }
    assert Ahead(ns, ids[p]) == Members(front);
  }

  lemma AheadOrNot(ns: seq<Notification>, ids: seq<nat>, p: nat, j: nat)
    requires Ordered(ns, ids) && p < |ids|
    requires forall id: nat :: id in ids <==> id < |ns| && Open(ns[id])
    ensures j in Ahead(ns, ids[p]) <==> j in ids[..p]
  {
    if j in ids {
      var i :| 0 <= i < |ids| && ids[i] == j;
      if i < p {
        assert ids[..p][i] == j;
      } else {
        assert !Before(ns, j, ids[p]);
      }
    }
  }

  // An open follow-up is reached by a sweep exactly when fewer open ones than the batch holds come
  // before it. Closed ones are never reached.
  lemma ReachedIff(ns: seq<Notification>, size: nat, id: nat)
    requires id < |ns|
    ensures id in Batch(ns, size) <==> Open(ns[id]) && |Ahead(ns, id)| < size
  {
    var ids := InOrder(ns, |ns|);
    InOrderIsOrdered(ns, |ns|);
    assert forall q :: 0 <= q < |Batch(ns, size)| ==> Batch(ns, size)[q] == ids[q];
    if id in ids {
      var p :| 0 <= p < |ids| && ids[p] == id;
      AheadIsPrefix(ns, p);
      if p < size {
        assert Batch(ns, size)[p] == id;
      } else {
        forall q | 0 <= q < |Batch(ns, size)| ensures Batch(ns, size)[q] != id {
          assert Before(ns, ids[q], ids[p]);
        }
      }
    }
  }
}
