// Quiet hours: when an e-mail held back during the night may go out
// (backend/apps/notifications/policy_services.py, lines 98-120), for zones with a fixed offset.
module QuietHours {
  import opened Clock
  import opened Results

  type TimeOfDay = n: int | 0 <= n < DAY

  datatype Profile = Profile(enabled: bool, start: Option<TimeOfDay>, end: Option<TimeOfDay>, offset: int)

  function LocalTime(p: Profile, t: int): TimeOfDay { (t + p.offset) % DAY }

  function LocalDate(p: Profile, t: int): int { (t + p.offset) / DAY }

  predicate Inside(start: TimeOfDay, end: TimeOfDay, time: TimeOfDay) {
    if start < end then start <= time < end else time >= start || time < end
  }

  // quiet_hours_eligible_at_for_profile
  function EligibleAt(p: Profile, candidate: int): int {
    if !p.enabled then candidate
    else if p.start.None? || p.end.None? || p.start == p.end then candidate
    else
      var start, end := p.start.value, p.end.value;
      var time := LocalTime(p, candidate);
      if !Inside(start, end, time) then candidate
      else
        var date := LocalDate(p, candidate) + if start > end && time >= start then 1 else 0;
        date * DAY + end - p.offset
  }

  // Instant t falls in the profile's quiet window.
  predicate Quiet(p: Profile, t: int) {
    p.enabled && p.start.Some? && p.end.Some? && p.start != p.end
    && Inside(p.start.value, p.end.value, LocalTime(p, t))
  }

  // Time of day and date of an instant a few hours later, on the same or the next local day.
  lemma LaterClock(p: Profile, date: int, time: int, t: int)
    requires 0 <= time < DAY && t == date * DAY + time - p.offset
    ensures LocalTime(p, t) == time && LocalDate(p, t) == date
  {
  }

  lemma ClockOf(p: Profile, t: int)
    ensures t == LocalDate(p, t) * DAY + LocalTime(p, t) - p.offset
  {
  }

  // Local instant t lies in the quiet window that begins on day d: from the start to the end, which comes
  // a day later when it is the smaller time of day. The start is quiet, the end is not.
  predicate InWindow(start: TimeOfDay, end: TimeOfDay, d: int, local: int) {
    d * DAY + start <= local < d * DAY + end + if start < end then 0 else DAY
  }

  ghost predicate SomeWindow(start: TimeOfDay, end: TimeOfDay, local: int) {
    exists d :: InWindow(start, end, d, local)
  }

  lemma DayOf(local: int, d: int)
    requires d * DAY <= local < d * DAY + DAY
    ensures local / DAY == d && local % DAY == local - d * DAY
  {
  }

  // An instant is quiet exactly when it lies in the window of some day.
  lemma QuietIff(p: Profile, t: int)
    requires p.enabled && p.start.Some? && p.end.Some? && p.start != p.end
    ensures Quiet(p, t) <==> SomeWindow(p.start.value, p.end.value, t + p.offset)
  {
    var start, end, local := p.start.value, p.end.value, t + p.offset;
    var today, time := local / DAY, local % DAY;
    if Quiet(p, t) {
      assert InWindow(start, end, if start < end || time >= start then today else today - 1, local);
    }
    if d :| InWindow(start, end, d, local) {
      if local < d * DAY + DAY {
        DayOf(local, d);
      } else {
        DayOf(local, d + 1);
      }
    }
  }

  // Without both ends, with equal ones, or switched off, nothing is quiet.
  lemma NeverQuiet(p: Profile, t: int)
    requires !p.enabled || p.start.None? || p.end.None? || p.start == p.end
    ensures !Quiet(p, t) && EligibleAt(p, t) == t
  {
  }

  // The answer is the first instant from the candidate on that is not quiet.
  lemma FirstUnquietInstant(p: Profile, candidate: int)
    ensures candidate <= EligibleAt(p, candidate) < candidate + DAY
    ensures !Quiet(p, EligibleAt(p, candidate))
    ensures forall t :: candidate <= t < EligibleAt(p, candidate) ==> Quiet(p, t)
  {
    if Quiet(p, candidate) {
      var start, end := p.start.value, p.end.value;
      var date, time := LocalDate(p, candidate), LocalTime(p, candidate);
      ClockOf(p, candidate);
      var r := EligibleAt(p, candidate);
      var last := date + if start > end && time >= start then 1 else 0;
      LaterClock(p, last, end, r);
      forall t | candidate <= t < r ensures Quiet(p, t) {
        var ahead := t - candidate;
        if time + ahead < DAY {
          LaterClock(p, date, time + ahead, t);
        } else {
          LaterClock(p, date + 1, time + ahead - DAY, t);
        }
      }
    }
  }

  // Asking again changes nothing, and later candidates never get earlier answers.
  lemma EligibleIdempotent(p: Profile, candidate: int)
    ensures EligibleAt(p, EligibleAt(p, candidate)) == EligibleAt(p, candidate)
  {
    FirstUnquietInstant(p, candidate);
  }

  lemma EligibleMonotone(p: Profile, a: int, b: int)
    requires a <= b
    ensures EligibleAt(p, a) <= EligibleAt(p, b)
  {
    FirstUnquietInstant(p, a);
    FirstUnquietInstant(p, b);
  }

  // A candidate is moved exactly when it is quiet.
  lemma QuietMoves(p: Profile, candidate: int)
    ensures EligibleAt(p, candidate) == candidate <==> !Quiet(p, candidate)
  {
    FirstUnquietInstant(p, candidate);
  }
}
