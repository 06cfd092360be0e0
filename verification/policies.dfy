// A project's reminder policy: stored values over system defaults, each update checked as a whole
// (backend/apps/notifications/policy_services.py, lines 127-227).
module Policies {
  import opened Results

  // Minutes, and a count of reminders.
  datatype Policy = Policy(lead: int, delay: int, repeatEvery: int, max: int)

  datatype Stored = Stored(policy: Policy, version: nat)

  datatype Bounds = Bounds(lower: int, upper: int)

  // The fields an update names.
  datatype Changes = Changes(lead: Option<int>, delay: Option<int>, repeatEvery: Option<int>, max: Option<int>)

  datatype Refusal = Forbidden | VersionConflict | LeadOutOfRange | DelayOutOfRange | RepeatOutOfRange | MaxOutOfRange

  // effective_project_policy
  function Effective(defaults: Policy, stored: Option<Stored>): Policy {
    if stored.Some? then stored.value.policy else defaults
  }

  function Version(stored: Option<Stored>): nat {
    if stored.Some? then stored.value.version else 0
  }

  function Merged(p: Policy, c: Changes): Policy {
    Policy(if c.lead.Some? then c.lead.value else p.lead,
           if c.delay.Some? then c.delay.value else p.delay,
           if c.repeatEvery.Some? then c.repeatEvery.value else p.repeatEvery,
           if c.max.Some? then c.max.value else p.max)
  }

  // validate_project_policy_values
  function Objection(p: Policy, b: Bounds): Option<Refusal> {
    if !(b.lower <= p.lead <= b.upper) then Some(LeadOutOfRange)
    else if !(b.lower <= p.delay <= b.upper) then Some(DelayOutOfRange)
    else if !(b.lower <= p.repeatEvery <= b.upper) then Some(RepeatOutOfRange)
    else if !(0 <= p.max <= 20) then Some(MaxOutOfRange)
    else None
  }

  // update_project_policy: the first update stores the defaults with the changes on top.
  function Updated(stored: Option<Stored>, defaults: Policy, b: Bounds, allowed: bool, expected: int, c: Changes)
    : Result<Stored, Refusal>
  {
    var policy := Merged(Effective(defaults, stored), c);
    if !allowed then Err(Forbidden)
    else if Version(stored) != expected then Err(VersionConflict)
    else if Objection(policy, b).Some? then Err(Objection(policy, b).value)
    else Ok(Stored(policy, Version(stored) + 1))
  }

  datatype Update = Update(allowed: bool, expected: int, changes: Changes)

  function Step(stored: Option<Stored>, defaults: Policy, b: Bounds, u: Update): Option<Stored> {
    var reply := Updated(stored, defaults, b, u.allowed, u.expected, u.changes);
    if reply.Ok? then Some(reply.value) else stored
  }

  function Run(defaults: Policy, b: Bounds, us: seq<Update>): Option<Stored> {
    if us == [] then None else Step(Run(defaults, b, us[..|us| - 1]), defaults, b, us[|us| - 1])
  }

  predicate InRange(p: Policy, b: Bounds) {
    && b.lower <= p.lead <= b.upper && b.lower <= p.delay <= b.upper && b.lower <= p.repeatEvery <= b.upper
    && 0 <= p.max <= 20
  }

  // Whatever updates are tried, the policy in force is in range if the defaults are.
  lemma {:induction false} EffectiveInRange(defaults: Policy, b: Bounds, us: seq<Update>)
    requires InRange(defaults, b)
    ensures InRange(Effective(defaults, Run(defaults, b, us)), b)
  {
    if us != [] {
      EffectiveInRange(defaults, b, us[..|us| - 1]);
    }
  }

  // Two writers that read the same version cannot both succeed.
  lemma OneWriterWins(stored: Option<Stored>, defaults: Policy, b: Bounds, first: Update, second: Update)
    requires Updated(stored, defaults, b, first.allowed, first.expected, first.changes).Ok?
    requires second.expected == first.expected
    ensures Step(Step(stored, defaults, b, first), defaults, b, second) == Step(stored, defaults, b, first)
  {
  }

  // The policy an update asks for: what it does not name stays as it was, or as the default.
  predicate AsksFor(before: Policy, c: Changes, asked: Policy) {
    && (c.lead.Some? ==> asked.lead == c.lead.value) && (c.lead.None? ==> asked.lead == before.lead)
    && (c.delay.Some? ==> asked.delay == c.delay.value) && (c.delay.None? ==> asked.delay == before.delay)
    && (c.repeatEvery.Some? ==> asked.repeatEvery == c.repeatEvery.value)
    && (c.repeatEvery.None? ==> asked.repeatEvery == before.repeatEvery)
    && (c.max.Some? ==> asked.max == c.max.value) && (c.max.None? ==> asked.max == before.max)
  }

  // An allowed update of the version in force is stored exactly when the whole policy it leads to is in
  // range, one version later; version zero means that nothing is stored yet.
  lemma UpdatesIff(stored: Option<Stored>, defaults: Policy, b: Bounds, u: Update, asked: Policy)
    requires AsksFor(if stored.Some? then stored.value.policy else defaults, u.changes, asked)
    ensures Updated(stored, defaults, b, u.allowed, u.expected, u.changes).Ok? <==>
      u.allowed && u.expected == (if stored.Some? then stored.value.version else 0) && InRange(asked, b)
    ensures Updated(stored, defaults, b, u.allowed, u.expected, u.changes).Ok? ==>
      Step(stored, defaults, b, u) == Some(Stored(asked, u.expected + 1))
  {
  }

  class PolicyDesk {
    var stored: Option<Stored>

    constructor ()
      ensures stored == None
    {
      stored := None;
    }

    method Change(defaults: Policy, b: Bounds, allowed: bool, expected: int, c: Changes) returns (refusal: Option<Refusal>)
      modifies this
      ensures match Updated(old(stored), defaults, b, allowed, expected, c)
        case Ok(after) => refusal == None && stored == Some(after)
        case Err(reason) => refusal == Some(reason) && stored == old(stored)
    {
      if !allowed { return Some(Forbidden); }
      if stored.None? {
        if expected != 0 { return Some(VersionConflict); }
        var first := Merged(defaults, c);
        refusal := Objection(first, b);
        if refusal.Some? { return; }
        stored := Some(Stored(first, 1));
        return None;
      }
      var row := stored.value;
      if row.version != expected { return Some(VersionConflict); }
      var policy := Merged(row.policy, c);
      refusal := Objection(policy, b);
      if refusal.Some? { return; }
      row := row.(policy := policy);
      stored := Some(row.(version := row.version + 1));
    }
  }
}
