// The temporal table of recipient grants: re-resolution closes, refreshes and opens rows
// (backend/apps/schedules/audience_services.py, lines 188-232).
module Grants {
  import opened Results
  import opened Audience

  predicate Open(g: Grant) { g.validUntil.None? }

  // can_view_schedule_item: valid_from <= t and (no end, or t before the end).
  predicate ValidAt(g: Grant, t: int) {
    g.validFrom <= t && (g.validUntil.None? || t < g.validUntil.value)
  }

  ghost predicate Holds(grants: seq<Grant>, recipient: int, t: int) {
    exists i :: 0 <= i < |grants| && grants[i].recipient == recipient && ValidAt(grants[i], t)
  }

  // The unique constraint unique_open_schedule_grant.
  ghost predicate OneOpenEach(grants: seq<Grant>) {
    forall i, j :: 0 <= i < j < |grants| && Open(grants[i]) && Open(grants[j]) ==>
      grants[i].recipient != grants[j].recipient
  }

  predicate HasOpen(grants: seq<Grant>, recipient: int) {
    exists i :: 0 <= i < |grants| && Open(grants[i]) && grants[i].recipient == recipient
  }

  // What re-resolution does to one existing row.
  function Touch(g: Grant, now: int, res: Resolution): Grant {
    if !Open(g) then g
    else if g.recipient in res.entries then g.(evidence := res.entries[g.recipient], resolvedAt := now)
    else g.(validUntil := Some(if now > g.validFrom + 1 then now else g.validFrom + 1), resolvedAt := now)
  }

  function Touched(grants: seq<Grant>, now: int, res: Resolution): (r: seq<Grant>)
    ensures |r| == |grants|
    ensures forall i :: 0 <= i < |grants| ==> r[i] == Touch(grants[i], now, res)
  {
    seq(|grants|, i requires 0 <= i < |grants| => Touch(grants[i], now, res))
  }

  // The rows added for recipients among the first n that hold no open grant, in order.
  function Added(grants: seq<Grant>, now: int, res: Resolution, n: nat): seq<Grant>
    requires WellFormed(res) && n <= |res.order|
  {
    if n == 0 then []
    else
      var user := res.order[n - 1];
      Added(grants, now, res, n - 1)
      + if HasOpen(grants, user) then [] else [Grant(user, now, None, res.entries[user], now)]
  }

  function Reresolved(grants: seq<Grant>, now: int, res: Resolution): seq<Grant>
    requires WellFormed(res)
  {
    Touched(grants, now, res) + Added(grants, now, res, |res.order|)
  }

  // ---- What every re-resolution keeps ---------------------------------------------------

  lemma {:induction false} AddedRows(grants: seq<Grant>, now: int, res: Resolution, n: nat)
    requires WellFormed(res) && n <= |res.order|
    ensures forall g :: g in Added(grants, now, res, n) ==>
      g.recipient in res.entries && !HasOpen(grants, g.recipient)
      && g == Grant(g.recipient, now, None, res.entries[g.recipient], now)
  {
    if n > 0 {
      AddedRows(grants, now, res, n - 1);
    }
  }

  ghost predicate Distinct(rows: seq<Grant>) {
    forall i, j :: 0 <= i < j < |rows| ==> rows[i].recipient != rows[j].recipient
  }

  lemma DistinctAppend(rows: seq<Grant>, g: Grant)
    requires Distinct(rows) && forall r :: r in rows ==> r.recipient != g.recipient
    ensures Distinct(rows + [g])
  {
    forall i | 0 <= i < |rows| ensures rows[i].recipient != g.recipient {
      assert rows[i] in rows;
    }
  }

  lemma {:induction false} AddedDistinct(grants: seq<Grant>, now: int, res: Resolution, n: nat)
    requires WellFormed(res) && n <= |res.order|
    ensures Distinct(Added(grants, now, res, n))
    ensures forall g :: g in Added(grants, now, res, n) ==> g.recipient in res.order[..n]
  {
    if n > 0 {
      AddedDistinct(grants, now, res, n - 1);
      var rest := Added(grants, now, res, n - 1);
      assert res.order[..n] == res.order[..n - 1] + [res.order[n - 1]];
      forall g | g in rest ensures g.recipient != res.order[n - 1] {
        var k :| 0 <= k < n - 1 && res.order[..n - 1][k] == g.recipient;
        assert res.order[k] != res.order[n - 1];
      }
      var user := res.order[n - 1];
      if HasOpen(grants, user) {
        assert Added(grants, now, res, n) == rest;
      } else {
        assert user in res.order;
        DistinctAppend(rest, Grant(user, now, None, res.entries[user], now));
      }
    }
  }

  lemma {:induction false} AddedCovers(grants: seq<Grant>, now: int, res: Resolution, n: nat, k: nat)
    requires WellFormed(res) && k < n <= |res.order| && !HasOpen(grants, res.order[k])
    ensures exists g :: g in Added(grants, now, res, n) && g.recipient == res.order[k]
  {
    if k < n - 1 {
      AddedCovers(grants, now, res, n - 1, k);
    } else {
      var g := Grant(res.order[k], now, None, res.entries[res.order[k]], now);
      assert Added(grants, now, res, n) == Added(grants, now, res, n - 1) + [g];
      assert g in Added(grants, now, res, n);
    }
  }

  // Rows that were closed stay as they are; no row changes its recipient or its start.
  lemma ClosedNeverChange(grants: seq<Grant>, now: int, res: Resolution)
    requires WellFormed(res)
    ensures var after := Reresolved(grants, now, res);
      && |grants| <= |after|
      && (forall i :: 0 <= i < |grants| && !Open(grants[i]) ==> after[i] == grants[i])
      && (forall i :: 0 <= i < |grants| ==>
           after[i].recipient == grants[i].recipient && after[i].validFrom == grants[i].validFrom)
  {
  }

  // The open rows afterwards belong to exactly the resolved recipients, one row each.
  lemma OneOpenAfter(grants: seq<Grant>, now: int, res: Resolution)
    requires WellFormed(res) && OneOpenEach(grants)
    ensures OneOpenEach(Reresolved(grants, now, res))
  {
    var touched, added := Touched(grants, now, res), Added(grants, now, res, |res.order|);
    AddedRows(grants, now, res, |res.order|);
    AddedDistinct(grants, now, res, |res.order|);
    forall i, j | 0 <= i < j < |touched| && Open(touched[i]) && Open(touched[j])
      ensures touched[i].recipient != touched[j].recipient
    {
      assert Open(grants[i]) && Open(grants[j]);
    }
    forall i, j | 0 <= i < |touched| && 0 <= j < |added| && Open(touched[i])
      ensures touched[i].recipient != added[j].recipient
    {
      assert added[j] in added;
      assert Open(grants[i]) && grants[i].recipient == touched[i].recipient;
    }
  }

  lemma OpenIsResolved(grants: seq<Grant>, now: int, res: Resolution, r: int)
    requires WellFormed(res)
    ensures HasOpen(Reresolved(grants, now, res), r) <==> r in res.entries
  {
    var after, n := Reresolved(grants, now, res), |grants|;
    var added := Added(grants, now, res, |res.order|);
    AddedRows(grants, now, res, |res.order|);
    if r in res.entries {
      if HasOpen(grants, r) {
        var i :| 0 <= i < n && Open(grants[i]) && grants[i].recipient == r;
        assert Open(after[i]) && after[i].recipient == r;
      } else {
        var k :| 0 <= k < |res.order| && res.order[k] == r;
        AddedCovers(grants, now, res, |res.order|, k);
        var i :| 0 <= i < |added| && added[i].recipient == r;
        assert Open(after[n + i]) && after[n + i].recipient == r;
      }
    } else {
      forall i | 0 <= i < |after| ensures !(Open(after[i]) && after[i].recipient == r) {
        if i >= n {
          assert after[i] in added;
        }
      }
    }
  }
}
