// Overlapping reminder scans: each recipient is claimed by inserting a dispatch row, and a batch
// of claims is turned into notifications in one transaction
// (backend/apps/schedules/reminder_services.py, lines 26-179 and 338-359).
module ReminderClaims {
  import opened Results
  import opened Sequences

  // The unique key of a reminder dispatch, without its channel.
  datatype Key = Key(item: int, recipient: int, occurrence: string, offset: int)

  datatype DispatchStatus = Claimed | Created | Skipped | Failed

  datatype Dispatch = Dispatch(status: DispatchStatus, notification: Option<nat>)

  // The dispatch rows by channel, and the reminder each notification row is for.
  datatype Tables = Tables(inApp: map<Key, Dispatch>, email: map<Key, Dispatch>, notifications: seq<Key>)

  // One claim becomes a notification, its CREATED in-app row and, if absent, its e-mail row.
  function CreateOne(t: Tables, k: Key): Tables {
    var n := |t.notifications|;
    Tables(
      t.inApp[k := Dispatch(Created, Some(n))],
      if k in t.email then t.email else t.email[k := Dispatch(Claimed, Some(n))],
      t.notifications + [k])
  }

  function CreateAll(t: Tables, claims: seq<Key>): Tables {
    if claims == [] then t else CreateOne(CreateAll(t, claims[..|claims| - 1]), claims[|claims| - 1])
  }

  lemma {:induction false} CreateAllNotifications(t: Tables, claims: seq<Key>)
    ensures CreateAll(t, claims).notifications == t.notifications + claims
  {
    if claims != [] {
      CreateAllNotifications(t, claims[..|claims| - 1]);
      assert claims == claims[..|claims| - 1] + [claims[|claims| - 1]];
    }
  }

  class DispatchTable {
    var inApp: map<Key, Dispatch>
    var email: map<Key, Dispatch>
    var notifications: seq<Key>

    ghost function Snapshot(): Tables
      reads this
    {
      Tables(inApp, email, notifications)
    }

    // get_or_create on the in-app row.
    method Claim(k: Key) returns (created: bool)
      modifies this`inApp
      ensures created <==> k !in old(inApp)
      ensures inApp == if created then old(inApp)[k := Dispatch(Claimed, None)] else old(inApp)
    {
      created := k !in inApp;
      if created {
        inApp := inApp[k := Dispatch(Claimed, None)];
      }
    }

    // _create_reminder_notifications: bulk-create the notifications, then pair each claim with
    // its notification and create the missing e-mail rows.
    method CreateReminders(claims: seq<Key>) returns (count: nat)
      modifies this
      ensures Snapshot() == CreateAll(old(Snapshot()), claims)
      ensures count == |claims|
    {
      if claims == [] { return 0; }
      ghost var before := Snapshot();
      var first := |notifications|;
      for i := 0 to |claims|
        invariant notifications == before.notifications + claims[..i]
        invariant inApp == before.inApp && email == before.email
      {
        notifications := notifications + [claims[i]];
      }
      assert claims[..|claims|] == claims;
      for i := 0 to |claims|
        invariant notifications == before.notifications + claims
        invariant inApp == CreateAll(before, claims[..i]).inApp
        invariant email == CreateAll(before, claims[..i]).email
      {
        CreateAllNotifications(before, claims[..i]);
        assert claims[..i + 1][..i] == claims[..i];
        inApp := inApp[claims[i] := Dispatch(Created, Some(first + i))];
        if claims[i] !in email {
          email := email[claims[i] := Dispatch(Claimed, Some(first + i))];
        }
      }
      CreateAllNotifications(before, claims);
      assert claims[..|claims|] == claims;
      count := |claims|;
    }
  }

  // ---- Any number of workers, any interleaving, any crash -------------------------------

  // `held` is what each running worker has claimed and not yet turned into notifications;
  // `abandoned` collects the claims of crashed workers.
  datatype State = State(tables: Tables, held: map<int, seq<Key>>, abandoned: set<Key>)

  datatype Move =
    | ClaimMove(worker: int, key: Key)
    | CommitMove(worker: int)
    | CrashMove(worker: int)
    | DeliverMove(notification: nat, outcome: DispatchStatus)

  function HeldBy(s: State, worker: int): seq<Key> {
    if worker in s.held then s.held[worker] else []
  }

  predicate SameGroup(a: Key, b: Key) {
    a.item == b.item && a.occurrence == b.occurrence && a.offset == b.offset
  }

  // A worker claims recipients of one item, occurrence and offset, then commits them together.
  predicate Enabled(s: State, move: Move) {
    match move
    case ClaimMove(w, k) => HeldBy(s, w) == [] || SameGroup(HeldBy(s, w)[0], k)
    case CommitMove(w) => HeldBy(s, w) != []
    case CrashMove(w) => true
    case DeliverMove(n, _) => n < |s.tables.notifications|
  }

  function KeysOf(claims: seq<Key>): set<Key> {
    set k | k in claims
  }

  // _sync_schedule_dispatch: the e-mail rows of a notification take its delivery status.
  function Synced(email: map<Key, Dispatch>, n: nat, status: DispatchStatus): map<Key, Dispatch> {
    map k | k in email :: if email[k].notification == Some(n) then email[k].(status := status) else email[k]
  }

  function Next(s: State, move: Move): State {
    if !Enabled(s, move) then s
    else
      match move
      case ClaimMove(w, k) =>
        if k in s.tables.inApp then s
        else s.(tables := s.tables.(inApp := s.tables.inApp[k := Dispatch(Claimed, None)]),
                held := s.held[w := HeldBy(s, w) + [k]])
      case CommitMove(w) => s.(tables := CreateAll(s.tables, s.held[w]), held := s.held[w := []])
      case CrashMove(w) => s.(held := s.held[w := []], abandoned := s.abandoned + KeysOf(HeldBy(s, w)))
      case DeliverMove(n, status) => s.(tables := s.tables.(email := Synced(s.tables.email, n, status)))
  }

  const Start: State := State(Tables(map[], map[], []), map[], {})

  function Reach(moves: seq<Move>): State {
    if moves == [] then Start else Next(Reach(moves[..|moves| - 1]), moves[|moves| - 1])
  }

  // A CREATED in-app row points at its own notification, a CLAIMED one at none.
  predicate RowLinked(t: Tables, k: Key)
    requires k in t.inApp
  {
    match t.inApp[k].status
    case Created =>
      && t.inApp[k].notification.Some? && t.inApp[k].notification.value < |t.notifications|
      && t.notifications[t.inApp[k].notification.value] == k
    case Claimed => t.inApp[k].notification.None?
    case _ => false
  }

  // Each notification and its CREATED in-app row point at each other.
  ghost predicate RowsLinked(t: Tables) {
    && (forall k :: k in t.inApp ==> RowLinked(t, k))
    && (forall n :: 0 <= n < |t.notifications| ==>
         t.notifications[n] in t.inApp && t.inApp[t.notifications[n]] == Dispatch(Created, Some(n)))
  }

  // The e-mail row of a reminder exists exactly beside its CREATED in-app row, for the same
  // notification.
  ghost predicate MailLinked(t: Tables) {
    && (forall k :: k in t.email <==> k in t.inApp && t.inApp[k].status.Created?)
    && (forall k :: k in t.email ==> t.email[k].notification == t.inApp[k].notification)
  }

  ghost predicate Linked(t: Tables) {
    RowsLinked(t) && MailLinked(t)
  }

  predicate IsClaim(t: Tables, k: Key) {
    k in t.inApp && t.inApp[k] == Dispatch(Claimed, None)
  }

  predicate Holds(s: State, w: int, k: Key) {
    w in s.held && k in s.held[w]
  }

  // A CLAIMED row is held by exactly one running worker, once, or was abandoned in a crash.
  ghost predicate Owned(s: State) {
    && (forall w :: w in s.held ==> NoRepeats(s.held[w]))
    && (forall w, k :: Holds(s, w, k) ==> IsClaim(s.tables, k) && k !in s.abandoned)
    && (forall v, w, k :: Holds(s, v, k) && Holds(s, w, k) ==> v == w)
    && (forall k :: k in s.abandoned ==> IsClaim(s.tables, k))
    && (forall k :: IsClaim(s.tables, k) ==> k in s.abandoned || exists w :: Holds(s, w, k))
  }

  lemma CreateOneKeepsRows(t: Tables, k: Key)
    requires RowsLinked(t) && IsClaim(t, k)
    ensures RowsLinked(CreateOne(t, k))
  {
    var after := CreateOne(t, k);
    assert forall n :: 0 <= n < |t.notifications| ==> after.notifications[n] == t.notifications[n] && t.notifications[n] != k;
  }

  lemma CreateOneKeeps(t: Tables, k: Key)
    requires Linked(t) && IsClaim(t, k)
    ensures Linked(CreateOne(t, k))
  {
    CreateOneKeepsRows(t, k);
    assert k !in t.email;
  }

  lemma {:induction false} ClaimsAfter(t: Tables, claims: seq<Key>, k: Key)
    ensures IsClaim(CreateAll(t, claims), k) <==> k !in claims && IsClaim(t, k)
  {
    if claims != [] {
      ClaimsAfter(t, claims[..|claims| - 1], k);
      assert claims == claims[..|claims| - 1] + [claims[|claims| - 1]];
    }
  }

  lemma {:induction false} CreateAllKeeps(t: Tables, claims: seq<Key>)
    requires Linked(t) && NoRepeats(claims) && forall i :: 0 <= i < |claims| ==> IsClaim(t, claims[i])
    ensures Linked(CreateAll(t, claims))
  {
    if claims != [] {
      var n := |claims| - 1;
      CreateAllKeeps(t, claims[..n]);
      ClaimsAfter(t, claims[..n], claims[n]);
      CreateOneKeeps(CreateAll(t, claims[..n]), claims[n]);
    }
  }

  lemma NewKey(s: State, w: int, k: Key)
    requires Owned(s) && k !in s.tables.inApp
    ensures NoRepeats(HeldBy(s, w) + [k])
    ensures k !in s.abandoned && forall v :: !Holds(s, v, k)
  {
    assert !IsClaim(s.tables, k);
    var held := HeldBy(s, w);
    forall i | 0 <= i < |held| ensures held[i] != k {
      assert Holds(s, w, held[i]);
    }
  }

  lemma ClaimKeepsLinked(t: Tables, k: Key)
    requires Linked(t) && k !in t.inApp
    ensures Linked(t.(inApp := t.inApp[k := Dispatch(Claimed, None)]))
  {
    var after := t.(inApp := t.inApp[k := Dispatch(Claimed, None)]);
    assert forall j :: j in t.inApp ==> j != k && RowLinked(t, j) && RowLinked(after, j);
  }

  lemma ClaimKeepsOwned(s: State, w: int, k: Key)
    requires Owned(s) && k !in s.tables.inApp && Enabled(s, ClaimMove(w, k))
    ensures Owned(Next(s, ClaimMove(w, k)))
  {
    var after := Next(s, ClaimMove(w, k));
    NewKey(s, w, k);
    forall v, j ensures Holds(after, v, j) <==> Holds(s, v, j) || (v == w && j == k) {}
    forall j ensures IsClaim(after.tables, j) <==> IsClaim(s.tables, j) || j == k {}
    forall j | IsClaim(after.tables, j) ensures j in after.abandoned || exists v :: Holds(after, v, j) {
      if j == k {
        assert Holds(after, w, k);
      } else if j !in s.abandoned {
        var v :| Holds(s, v, j);
        assert Holds(after, v, j);
      }
    }
  }

  lemma ClaimKeeps(s: State, w: int, k: Key)
    requires Linked(s.tables) && Owned(s)
    ensures Linked(Next(s, ClaimMove(w, k)).tables) && Owned(Next(s, ClaimMove(w, k)))
  {
    if Enabled(s, ClaimMove(w, k)) && k !in s.tables.inApp {
      ClaimKeepsLinked(s.tables, k);
      ClaimKeepsOwned(s, w, k);
    }
  }

  // Emptying a worker's hands: what was in them must no longer be a claim, or be abandoned.
  lemma ReleaseKeeps(s: State, w: int, after: State)
    requires Owned(s) && after.held == s.held[w := []]
    requires forall k :: IsClaim(after.tables, k) <==> IsClaim(s.tables, k) && (k in HeldBy(s, w) ==> k in after.abandoned)
    requires forall k :: k in after.abandoned ==> k in s.abandoned || (k in HeldBy(s, w) && IsClaim(after.tables, k))
    requires s.abandoned <= after.abandoned
    ensures Owned(after)
  {
    forall v, k ensures Holds(after, v, k) <==> Holds(s, v, k) && v != w {}
    forall k ensures k in HeldBy(s, w) <==> Holds(s, w, k) {}
    forall v, k | Holds(after, v, k) ensures IsClaim(after.tables, k) && k !in after.abandoned {
      assert !Holds(s, w, k);
    }
    forall k | IsClaim(after.tables, k) ensures k in after.abandoned || exists v :: Holds(after, v, k) {
      if k !in after.abandoned {
        var v :| Holds(s, v, k);
        assert Holds(after, v, k);
      }
    }
  }

  lemma CommitKeeps(s: State, w: int)
    requires Linked(s.tables) && Owned(s)
    ensures Linked(Next(s, CommitMove(w)).tables) && Owned(Next(s, CommitMove(w)))
  {
    if HeldBy(s, w) != [] {
      var claims := s.held[w];
      forall i | 0 <= i < |claims| ensures IsClaim(s.tables, claims[i]) {
        assert Holds(s, w, claims[i]);
      }
      CreateAllKeeps(s.tables, claims);
      forall k ensures IsClaim(CreateAll(s.tables, claims), k) <==> k !in claims && IsClaim(s.tables, k) {
        ClaimsAfter(s.tables, claims, k);
      }
      forall k | k in claims ensures k !in s.abandoned {
        assert Holds(s, w, k);
      }
      ReleaseKeeps(s, w, Next(s, CommitMove(w)));
    }
  }

  lemma CrashKeeps(s: State, w: int)
    requires Linked(s.tables) && Owned(s)
    ensures Linked(Next(s, CrashMove(w)).tables) && Owned(Next(s, CrashMove(w)))
  {
    forall k | k in HeldBy(s, w) ensures IsClaim(s.tables, k) {
      assert Holds(s, w, k);
    }
    ReleaseKeeps(s, w, Next(s, CrashMove(w)));
  }

  lemma DeliverKeeps(s: State, n: nat, status: DispatchStatus)
    requires Linked(s.tables) && Owned(s)
    ensures Linked(Next(s, DeliverMove(n, status)).tables) && Owned(Next(s, DeliverMove(n, status)))
  {
    var after := Next(s, DeliverMove(n, status));
    assert forall k :: IsClaim(after.tables, k) == IsClaim(s.tables, k);
    assert forall w, k :: Holds(after, w, k) == Holds(s, w, k);
  }

  // Every reachable state, whatever the workers' interleaving and crashes.
  lemma {:induction false} ReachableIsLinked(moves: seq<Move>)
    ensures Linked(Reach(moves).tables) && Owned(Reach(moves))
  {
    if moves != [] {
      var s := Reach(moves[..|moves| - 1]);
      ReachableIsLinked(moves[..|moves| - 1]);
      match moves[|moves| - 1]
      case ClaimMove(w, k) => ClaimKeeps(s, w, k);
      case CommitMove(w) => CommitKeeps(s, w);
      case CrashMove(w) => CrashKeeps(s, w);
      case DeliverMove(n, status) => DeliverKeeps(s, n, status);
    }
  }

  // At most one notification per item, recipient, occurrence and offset.
  lemma AtMostOneNotification(moves: seq<Move>, i: nat, j: nat)
    requires i < |Reach(moves).tables.notifications| && j < |Reach(moves).tables.notifications|
    requires Reach(moves).tables.notifications[i] == Reach(moves).tables.notifications[j]
    ensures i == j
  {
    ReachableIsLinked(moves);
  }

  // A claim abandoned by a crash is never notified, in any continuation: the crash costs
  // exactly the reminders it held.
  lemma {:induction false} AbandonedStaysSilent(moves: seq<Move>, more: seq<Move>, k: Key)
    requires k in Reach(moves).abandoned
    ensures k in Reach(moves + more).abandoned
    ensures k !in Reach(moves + more).tables.notifications && k !in Reach(moves + more).tables.email
  {
    if more == [] {
      assert moves + more == moves;
    } else {
      var n := |more| - 1;
      AbandonedStaysSilent(moves, more[..n], k);
      assert (moves + more)[..|moves + more| - 1] == moves + more[..n];
    }
    ReachableIsLinked(moves + more);
  }

  // It happens to every reminder: a worker claims it and is killed before it creates the notification.
  lemma ClaimsCanBeAbandoned(k: Key, more: seq<Move>) returns (moves: seq<Move>)
    ensures k in Reach(moves).abandoned && k in Reach(moves + more).tables.inApp
    ensures k !in Reach(moves + more).tables.notifications && k !in Reach(moves + more).tables.email
  {
    var claim, crash := ClaimMove(1, k), CrashMove(1);
    moves := [claim, crash];
    assert moves[..1] == [claim] && [claim][..0] == [];
    assert Reach([claim]) == Next(Start, claim) && HeldBy(Reach([claim]), 1) == [k];
    assert k in KeysOf([k]);
    AbandonedStaysSilent(moves, more, k);
    ReachableIsLinked(moves + more);
  }

  // Once notified, a reminder stays notified by the same notification.
  lemma {:induction false} NotifiedOnceForAll(moves: seq<Move>, more: seq<Move>)
    ensures Reach(moves).tables.notifications <= Reach(moves + more).tables.notifications
  {
    if more == [] {
      assert moves + more == moves;
    } else {
      var n := |more| - 1;
      NotifiedOnceForAll(moves, more[..n]);
      assert (moves + more)[..|moves + more| - 1] == moves + more[..n];
      var s, move := Reach(moves + more[..n]), more[n];
      if move.CommitMove? && Enabled(s, move) {
        CreateAllNotifications(s.tables, s.held[move.worker]);
      }
    }
  }

  // ---- What a batch and a delivery write ------------------------------------------------

  lemma {:induction false} CreatedRows(t: Tables, claims: seq<Key>, i: nat)
    requires NoRepeats(claims) && i < |claims|
    ensures var after := CreateAll(t, claims);
      && claims[i] in after.inApp && after.inApp[claims[i]] == Dispatch(Created, Some(|t.notifications| + i))
      && claims[i] in after.email
      && (claims[i] !in t.email ==> after.email[claims[i]] == Dispatch(Claimed, Some(|t.notifications| + i)))
  {
    var n := |claims| - 1;
    CreateAllNotifications(t, claims[..n]);
    if i < n {
      CreatedRows(t, claims[..n], i);
      assert claims[i] != claims[n];
    } else {
      OtherRows(t, claims[..n], claims[n]);
    }
  }

  lemma {:induction false} OtherRows(t: Tables, claims: seq<Key>, k: Key)
    requires k !in claims
    ensures var after := CreateAll(t, claims);
      && (k in after.inApp <==> k in t.inApp) && (k in t.inApp ==> after.inApp[k] == t.inApp[k])
      && (k in after.email <==> k in t.email) && (k in t.email ==> after.email[k] == t.email[k])
  {
    if claims != [] {
      var n := |claims| - 1;
      assert claims == claims[..n] + [claims[n]];
      OtherRows(t, claims[..n], k);
    }
  }

  // In every reachable state a commit turns exactly the worker's claims, in their order, into
  // notifications: each in-app row becomes CREATED and gets a CLAIMED e-mail row for the same
  // notification. No other row changes, and the worker's hands are empty.
  lemma CommitIsRecorded(moves: seq<Move>, w: int, i: nat)
    requires i < |HeldBy(Reach(moves), w)|
    ensures var before, after, k := Reach(moves).tables, Next(Reach(moves), CommitMove(w)).tables, HeldBy(Reach(moves), w)[i];
      && after.notifications == before.notifications + HeldBy(Reach(moves), w)
      && k in after.inApp && after.inApp[k] == Dispatch(Created, Some(|before.notifications| + i))
      && k in after.email && after.email[k] == Dispatch(Claimed, Some(|before.notifications| + i))
    ensures HeldBy(Next(Reach(moves), CommitMove(w)), w) == []
  {
    ReachableIsLinked(moves);
    var s := Reach(moves);
    var claims := s.held[w];
    assert Holds(s, w, claims[i]);
    CreateAllNotifications(s.tables, claims);
    CreatedRows(s.tables, claims, i);
  }

  lemma CommitLeavesOthers(moves: seq<Move>, w: int, k: Key)
    requires k !in HeldBy(Reach(moves), w)
    ensures var before, after := Reach(moves).tables, Next(Reach(moves), CommitMove(w)).tables;
      && (k in after.inApp <==> k in before.inApp) && (k in before.inApp ==> after.inApp[k] == before.inApp[k])
      && (k in after.email <==> k in before.email) && (k in before.email ==> after.email[k] == before.email[k])
  {
    if HeldBy(Reach(moves), w) != [] {
      OtherRows(Reach(moves).tables, Reach(moves).held[w], k);
    }
  }

  // A claim writes one row, CLAIMED and without a notification, and only where there was none; the status
  // of a delivered notification is copied to its e-mail row and to nothing else.
  lemma ClaimsAndDeliveries(s: State, move: Move)
    requires Enabled(s, move) && (move.ClaimMove? || move.DeliverMove?)
    ensures move.ClaimMove? ==>
      var after := Next(s, move);
      if move.key in s.tables.inApp then after == s
      else after.tables == s.tables.(inApp := s.tables.inApp[move.key := Dispatch(Claimed, None)])
           && HeldBy(after, move.worker) == HeldBy(s, move.worker) + [move.key]
           && (forall v :: v != move.worker ==> HeldBy(after, v) == HeldBy(s, v)) && after.abandoned == s.abandoned
    ensures move.DeliverMove? ==>
      var after := Next(s, move);
      && after == s.(tables := s.tables.(email := after.tables.email)) && after.tables.email.Keys == s.tables.email.Keys
      && forall k :: k in s.tables.email ==>
           after.tables.email[k] == if s.tables.email[k].notification == Some(move.notification)
                                    then Dispatch(move.outcome, Some(move.notification)) else s.tables.email[k]
  {
  }
}
