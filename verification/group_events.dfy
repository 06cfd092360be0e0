// Announcing a group schedule to its recipients: one dispatch row per recipient, item version and
// kind of event (backend/apps/schedules/reminder_services.py, lines 182-250). Every caller runs it
// inside a transaction, so a call is one step.
module GroupEvents {
  import opened Results
  import D = Delivery
  import DR = DeliveryRuns
  import Q = QuietHours

  datatype Kind = Published | Changed | Cancelled | Removed

  datatype Key = Key(item: int, recipient: int, version: int, kind: Kind)

  datatype Dispatch = Claimed(notification: Option<nat>) | Created(notification: Option<nat>)

  // The dispatch rows by channel, and for each notification its key and how it is delivered.
  datatype Tables = Tables(inApp: map<Key, Dispatch>, email: map<Key, Dispatch>, notes: seq<(Key, D.Policy)>)

  function PolicyFor(kind: Kind): D.Policy {
    if kind.Cancelled? then D.InAppEmail else D.InApp
  }

  function Announced(t: Tables, k: Key): Tables {
    if k in t.inApp then t
    else
      var n := |t.notes|;
      Tables(t.inApp[k := Created(Some(n))],
             if k.kind.Cancelled? && k !in t.email then t.email[k := Claimed(Some(n))] else t.email,
             t.notes + [(k, PolicyFor(k.kind))])
  }

  function AnnouncedAll(t: Tables, item: int, version: int, kind: Kind, recipients: seq<int>): Tables {
    if recipients == [] then t
    else
      Announced(AnnouncedAll(t, item, version, kind, recipients[..|recipients| - 1]),
                Key(item, recipients[|recipients| - 1], version, kind))
  }

  class Board {
    var inApp: map<Key, Dispatch>
    var email: map<Key, Dispatch>
    var notes: seq<(Key, D.Policy)>

    ghost function Snapshot(): Tables
      reads this
    {
      Tables(inApp, email, notes)
    }

    constructor ()
      ensures Snapshot() == Tables(map[], map[], [])
    {
      inApp, email, notes := map[], map[], [];
    }

    // The body of the loop for one recipient.
    method AnnounceTo(k: Key) returns (announced: bool)
      modifies this
      ensures Snapshot() == Announced(old(Snapshot()), k)
      ensures announced <==> k !in old(inApp)
    {
      announced := k !in inApp;
      if announced {
        inApp := inApp[k := Claimed(None)];
        notes := notes + [(k, if k.kind.Cancelled? then D.InAppEmail else D.InApp)];
        inApp := inApp[k := Created(Some(|notes| - 1))];
        if k.kind.Cancelled? && k !in email {
          email := email[k := Claimed(Some(|notes| - 1))];
        }
      }
    }

    // dispatch_group_event
    method DispatchEvent(item: int, version: int, kind: Kind, recipients: seq<int>) returns (created: nat)
      modifies this
      ensures Snapshot() == AnnouncedAll(old(Snapshot()), item, version, kind, recipients)
      ensures created == |notes| - |old(notes)|
    {
      created := 0;
      for i := 0 to |recipients|
        invariant Snapshot() == AnnouncedAll(old(Snapshot()), item, version, kind, recipients[..i])
        invariant created == |notes| - |old(notes)|
      {
        assert recipients[..i + 1][..i] == recipients[..i];
        var announced := AnnounceTo(Key(item, recipients[i], version, kind));
        created := created + if announced then 1 else 0;
      }
      assert recipients[..|recipients|] == recipients;
    }
  }

  // ---- Runs -----------------------------------------------------------------------------

  datatype Call = Call(item: int, version: int, kind: Kind, recipients: seq<int>)

  function Step(t: Tables, c: Call): Tables {
    AnnouncedAll(t, c.item, c.version, c.kind, c.recipients)
  }

  function Run(t: Tables, calls: seq<Call>): Tables {
    if calls == [] then t else Step(Run(t, calls[..|calls| - 1]), calls[|calls| - 1])
  }

  const Empty: Tables := Tables(map[], map[], [])

  // Each announcement and its in-app row point at each other.
  ghost predicate RowsLinked(t: Tables) {
    && (forall k :: k in t.inApp ==>
         && t.inApp[k].Created? && t.inApp[k].notification.Some?
         && t.inApp[k].notification.value < |t.notes| && t.notes[t.inApp[k].notification.value].0 == k)
    && (forall n :: 0 <= n < |t.notes| ==>
         && t.notes[n].0 in t.inApp && t.inApp[t.notes[n].0].notification == Some(n)
         && t.notes[n].1 == if t.notes[n].0.kind == Cancelled then D.InAppEmail else D.InApp)
  }

  // The row of the e-mail channel stands beside the rows of cancellations and no others.
  ghost predicate MailLinked(t: Tables) {
    && (forall k :: k in t.email <==> k in t.inApp && k.kind.Cancelled?)
    && (forall k :: k in t.email ==> t.email[k].Claimed? && t.email[k].notification == t.inApp[k].notification)
  }

  ghost predicate Linked(t: Tables) {
    RowsLinked(t) && MailLinked(t)
  }

  lemma AnnouncedKeepsRows(t: Tables, k: Key)
    requires RowsLinked(t)
    ensures RowsLinked(Announced(t, k))
  {
    var after := Announced(t, k);
    if k !in t.inApp {
      assert forall n :: 0 <= n < |t.notes| ==> after.notes[n] == t.notes[n] && t.notes[n].0 != k;
    }
  }

  lemma AnnouncedKeepsMail(t: Tables, k: Key)
    requires MailLinked(t)
    ensures MailLinked(Announced(t, k))
  {
  }

  lemma AnnouncedKeeps(t: Tables, k: Key)
    requires Linked(t)
    ensures Linked(Announced(t, k))
  {
    AnnouncedKeepsRows(t, k);
    AnnouncedKeepsMail(t, k);
  }

  // Rows and notifications already there stay as they are.
  ghost predicate Extends(t: Tables, after: Tables) {
    t.notes <= after.notes && forall k :: k in t.inApp ==> k in after.inApp && after.inApp[k] == t.inApp[k]
  }

  lemma {:induction false} AnnouncedAllExtends(t: Tables, item: int, version: int, kind: Kind, recipients: seq<int>)
    ensures Extends(t, AnnouncedAll(t, item, version, kind, recipients))
  {
    if recipients != [] {
      AnnouncedAllExtends(t, item, version, kind, recipients[..|recipients| - 1]);
    }
  }

  lemma {:induction false} AnnouncedAllKeeps(t: Tables, item: int, version: int, kind: Kind, recipients: seq<int>)
    requires Linked(t)
    ensures Linked(AnnouncedAll(t, item, version, kind, recipients))
  {
    if recipients != [] {
      var front := recipients[..|recipients| - 1];
      AnnouncedAllKeeps(t, item, version, kind, front);
      AnnouncedKeeps(AnnouncedAll(t, item, version, kind, front), Key(item, recipients[|recipients| - 1], version, kind));
    }
  }

  // One call leaves a row for exactly its recipients, beside the rows there were.
  lemma {:induction false} AnnouncedAllReaches(t: Tables, item: int, version: int, kind: Kind, recipients: seq<int>, k: Key)
    ensures k in AnnouncedAll(t, item, version, kind, recipients).inApp <==>
      k in t.inApp || (k.item == item && k.version == version && k.kind == kind && k.recipient in recipients)
  {
    if recipients != [] {
      var front, last := recipients[..|recipients| - 1], recipients[|recipients| - 1];
      AnnouncedAllReaches(t, item, version, kind, front, k);
      assert recipients == front + [last];
    }
  }

  // What a call adds is for recipients who had no row.
  lemma AddedIsNew(t: Tables, after: Tables, n: nat)
    requires Linked(t) && Linked(after) && Extends(t, after) && |t.notes| <= n < |after.notes|
    ensures after.notes[n].0 !in t.inApp
  {
  }

  lemma {:induction false} RunsAreLinked(calls: seq<Call>)
    ensures Linked(Run(Empty, calls))
  {
    if calls != [] {
      RunsAreLinked(calls[..|calls| - 1]);
      var c := calls[|calls| - 1];
      AnnouncedAllKeeps(Run(Empty, calls[..|calls| - 1]), c.item, c.version, c.kind, c.recipients);
    }
  }

  // Nobody hears twice of the same kind of event at one item version.
  lemma AnnouncedOnce(calls: seq<Call>, m: nat, n: nat)
    requires m < |Run(Empty, calls).notes| && n < |Run(Empty, calls).notes|
    requires Run(Empty, calls).notes[m].0 == Run(Empty, calls).notes[n].0
    ensures m == n
  {
    RunsAreLinked(calls);
  }

  lemma {:induction false} RowsStay(t: Tables, calls: seq<Call>)
    requires Linked(t)
    ensures Linked(Run(t, calls)) && Extends(t, Run(t, calls))
  {
    if calls != [] {
      RowsStay(t, calls[..|calls| - 1]);
      var c := calls[|calls| - 1];
      AnnouncedAllKeeps(Run(t, calls[..|calls| - 1]), c.item, c.version, c.kind, c.recipients);
      AnnouncedAllExtends(Run(t, calls[..|calls| - 1]), c.item, c.version, c.kind, c.recipients);
    }
  }

  // Re-resolving an audience does not change the item's version. So a recipient who is removed,
  // comes back and is removed again at that version does not hear of it the second time.
  lemma SecondRemovalIsSilent(calls: seq<Call>, between: seq<Call>, first: Call, again: Call, r: int)
    requires first.kind.Removed? && again.kind.Removed? && first.item == again.item && first.version == again.version
    requires r in first.recipients && r in again.recipients
    ensures var before := Run(Step(Run(Empty, calls), first), between);
      forall n :: |before.notes| <= n < |Step(before, again).notes| ==>
        Step(before, again).notes[n].0 != Key(again.item, r, again.version, Removed)
  {
    var k, started := Key(first.item, r, first.version, Removed), Run(Empty, calls);
    var told := Step(started, first);
    RunsAreLinked(calls);
    AnnouncedAllKeeps(started, first.item, first.version, first.kind, first.recipients);
    AnnouncedAllReaches(started, first.item, first.version, first.kind, first.recipients, k);
    RowsStay(told, between);
    var before := Run(told, between);
    AnnouncedAllKeeps(before, again.item, again.version, again.kind, again.recipients);
    AnnouncedAllExtends(before, again.item, again.version, again.kind, again.recipients);
    forall n | |before.notes| <= n < |Step(before, again).notes| ensures Step(before, again).notes[n].0 != k {
      AddedIsNew(before, Step(before, again), n);
    }
  }

  // A call announces to a recipient exactly when no earlier call did for this version and kind.
  lemma AnnouncesIff(calls: seq<Call>, c: Call, r: int)
    requires r in c.recipients
    ensures var before, k := Run(Empty, calls), Key(c.item, r, c.version, c.kind);
      (exists n :: |before.notes| <= n < |Step(before, c).notes| && Step(before, c).notes[n].0 == k) <==> k !in before.inApp
  {
    var before, k := Run(Empty, calls), Key(c.item, r, c.version, c.kind);
    var after := Step(before, c);
    RunsAreLinked(calls);
    AnnouncedAllKeeps(before, c.item, c.version, c.kind, c.recipients);
    AnnouncedAllExtends(before, c.item, c.version, c.kind, c.recipients);
    AnnouncedAllReaches(before, c.item, c.version, c.kind, c.recipients, k);
    if k !in before.inApp {
      var n := after.inApp[k].notification.value;
      assert after.notes[n].0 == k;
      forall m | 0 <= m < |before.notes| ensures after.notes[m].0 != k {
        assert after.notes[m] == before.notes[m] && before.notes[m].0 in before.inApp;
      }
    } else {
      forall n | |before.notes| <= n < |after.notes| ensures after.notes[n].0 != k {
        AddedIsNew(before, after, n);
      }
    }
  }

  // Publications, changes and removals are never mailed, whatever delivery sweeps run later.
  lemma OnlyCancellationsAreMailed(kind: Kind, candidate: int, profile: Q.Profile, enabled: bool, now: int,
                                   outbox: seq<D.Notification>, ops: seq<D.Op>)
    requires !kind.Cancelled? && DR.AllSound(outbox) && DR.AllTimely(ops)
    ensures var start := D.Step(outbox, D.EnqueueOp(PolicyFor(kind), candidate, profile, false, enabled, now));
      |outbox| < |D.Run(start, ops)| && D.Run(start, ops)[|outbox|].tries == []
  {
    var op := D.EnqueueOp(PolicyFor(kind), candidate, profile, false, enabled, now);
    DR.StepIsSound(outbox, op);
    DR.SettledForGood(D.Step(outbox, op), ops, |outbox|);
  }
}
