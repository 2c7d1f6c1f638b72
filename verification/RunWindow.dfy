/** The weekly calendar of run windows (continuous_production.py). */
module RunWindow {
  import opened Sequences

  /** Local time in microseconds, counted from midnight at the start of some Monday. The zone has a
      fixed offset, so local time is the absolute instant moved by three hours. */
  type Instant = int

  const SECOND := 1_000_000
  const HOUR := 3_600 * SECOND
  const DAY := 24 * HOUR

  datatype Policy = Policy(
    schemaOk: bool, zone: string, offsetMinutes: int, startMinute: int, stopMinute: int,
    weekendOpens: string, weekendStops: string, leadMinutes: int, shortLimitSec: int)

  datatype Kind = Weekend | Weeknight

  datatype Window =
    | Open(kind: Kind, opensAt: Instant, deadline: Instant, remainingSec: nat, startAllowed: bool)
    | Closed(nextKind: Kind, nextOpensAt: Instant, approvalAt: Instant, approvalDue: bool)

  datatype WindowError = BadPolicy | BadDuration | NotOpen | PastDeadline

  datatype Grant = Grant(longCampaign: bool, end: Instant, window: Window)

  function DayOf(t: Instant): int { t / DAY }

  function ClockOf(t: Instant): int { t % DAY }

  /** Monday is 0. */
  function Weekday(day: int): int { day % 7 }

  function At(day: int, hour: int): Instant { day * DAY + hour * HOUR }

  function PreviousWeekday(day: int, target: int): int { day - (Weekday(day) - target) % 7 }

  function PolicyOk(p: Policy): bool {
    p.schemaOk && p.zone == "Europe/Volgograd" && p.offsetMinutes == 180
    && p.startMinute == 19 * 60 && p.stopMinute == 8 * 60
    && p.weekendOpens == "FRIDAY 19:00" && p.weekendStops == "MONDAY 08:00" && 0 <= p.leadMinutes <= 720
  }

  function OpenPayload(now: Instant, kind: Kind, opensAt: Instant, deadline: Instant): Window {
    var remaining: nat := if deadline > now then (deadline - now) / SECOND else 0;
    Open(kind, opensAt, deadline, remaining, remaining > 0)
  }

  function Resolve(p: Policy, now: Instant): Result<Window, WindowError> {
    if !PolicyOk(p) then Err(BadPolicy)
    else
      var day, clock := DayOf(now), ClockOf(now);
      var weekday := Weekday(day);
      if (weekday == 4 && clock >= 19 * HOUR) || weekday in {5, 6} || (weekday == 0 && clock < 8 * HOUR) then
        var friday := PreviousWeekday(day, 4);
        var first := if weekday == 0 then friday - 7 else friday;
        Ok(OpenPayload(now, Weekend, At(first, 19), At(first + 3, 8)))
      else if weekday in {0, 1, 2, 3} && clock >= 19 * HOUR then
        Ok(OpenPayload(now, Weeknight, At(day, 19), At(day + 1, 8)))
      else if weekday in {1, 2, 3, 4} && clock < 8 * HOUR then
        Ok(OpenPayload(now, Weeknight, At(day - 1, 19), At(day, 8)))
      else
        var sameDay := At(day, 19);
        var next := if sameDay <= now then sameDay + DAY else sameDay;
        var approvalAt := next - p.leadMinutes * 60 * SECOND;
        Ok(Closed(if Weekday(DayOf(next)) == 4 then Weekend else Weeknight, next, approvalAt, now >= approvalAt))
  }

  function ValidateRequest(p: Policy, start: Instant, expectedSec: int, maxSec: int): Result<Grant, WindowError> {
    if expectedSec <= 0 || maxSec < expectedSec then Err(BadDuration)
    else if p.shortLimitSec <= 0 then Err(BadPolicy)
    else
      var w := Resolve(p, start);
      if w.Err? then Err(w.error)
      else if !w.value.Open? then Err(NotOpen)
      else if start + maxSec * SECOND > w.value.deadline then Err(PastDeadline)
      else Ok(Grant(maxSec > p.shortLimitSec, start + maxSec * SECOND, w.value))
  }

  // ---- The intended calendar, independently of the code ----

  /** Weeknights run Monday to Thursday 19:00 to 08:00 the next day, the weekend Friday 19:00 to Monday 08:00. */
  ghost predicate IntendedWindow(day: int, kind: Kind, opensAt: Instant, deadline: Instant) {
    && opensAt == At(day, 19)
    && (kind.Weekend? ==> Weekday(day) == 4 && deadline == At(day + 3, 8))
    && (kind.Weeknight? ==> Weekday(day) in {0, 1, 2, 3} && deadline == At(day + 1, 8))
  }

  predicate MondayMorning(t: Instant) { Weekday(DayOf(t)) == 0 && ClockOf(t) < 8 * HOUR }

  predicate WorkingHours(t: Instant) { Weekday(DayOf(t)) in {0, 1, 2, 3, 4} && 8 * HOUR <= ClockOf(t) < 19 * HOUR }

  lemma DayAndClock(t: Instant)
    ensures t == DayOf(t) * DAY + ClockOf(t) && 0 <= ClockOf(t) < DAY
  {
  }

  lemma DayUnique(t: Instant, day: int)
    requires day * DAY <= t < (day + 1) * DAY
    ensures DayOf(t) == day
  {
    DayAndClock(t);
  }

  /** The resolver is closed exactly in working hours, and then the next opening it reports is 19:00 on
      the same day, strictly later: the weekend window when that day is a Friday. */
  lemma ClosedExactlyInWorkingHours(p: Policy, now: Instant)
    requires PolicyOk(p)
    ensures Resolve(p, now).Ok?
    ensures Resolve(p, now).value.Closed? <==> WorkingHours(now)
    ensures WorkingHours(now) ==>
              var w := Resolve(p, now).value;
              && w.nextOpensAt == At(DayOf(now), 19) && w.nextOpensAt > now
              && (w.nextKind.Weekend? <==> Weekday(DayOf(now)) == 4)
  {
    DayAndClock(now);
    if WorkingHours(now) { DayUnique(At(DayOf(now), 19), DayOf(now)); }
  }

  /** An open result is one of the intended windows, 13 or 61 hours long, and it contains the instant
      except on Monday mornings: there the extra week gives last weekend's window, long over. */
  lemma OpenWindowIsIntended(p: Policy, now: Instant) returns (day: int)
    requires PolicyOk(p) && Resolve(p, now).value.Open?
    ensures var w := Resolve(p, now).value;
            && IntendedWindow(day, w.kind, w.opensAt, w.deadline)
            && w.deadline - w.opensAt == (if w.kind.Weekend? then 61 * HOUR else 13 * HOUR)
            && (w.opensAt <= now < w.deadline <==> !MondayMorning(now))
            && (MondayMorning(now) ==> w.deadline == At(DayOf(now) - 7, 8) && w.remainingSec == 0 && !w.startAllowed)
  {
    DayAndClock(now);
    day := OpeningDay(now);
  }

  function OpeningDay(now: Instant): int {
    var day, clock := DayOf(now), ClockOf(now);
    if Weekday(day) == 0 && clock < 8 * HOUR then day - 10
    else if Weekday(day) in {5, 6} then day - (Weekday(day) - 4)
    else if clock < 8 * HOUR then day - 1
    else day
  }

  /** At most one intended window contains an instant, and none contains an instant of working hours.
      On a Monday morning it is the weekend that opened three days earlier, not the one reported. */
  lemma IntendedWindowIsUnique(t: Instant, day: int, kind: Kind, opensAt: Instant, deadline: Instant)
    requires IntendedWindow(day, kind, opensAt, deadline) && opensAt <= t < deadline
    ensures !WorkingHours(t)
    ensures day == if MondayMorning(t) then DayOf(t) - 3 else OpeningDay(t)
    ensures kind.Weekend? <==> Weekday(day) == 4
  {
    DayAndClock(t);
    var d := DayOf(t);
    assert day <= d <= day + 3;
    if d == day { DayUnique(t, day); }
    else if d == day + 1 { DayUnique(t, day + 1); }
    else if d == day + 2 { DayUnique(t, day + 2); }
    else { DayUnique(t, day + 3); }
  }

  ghost predicate FitsIntended(start: Instant, maxSec: int) {
    exists day, kind, opensAt, deadline ::
      IntendedWindow(day, kind, opensAt, deadline) && opensAt <= start && start + maxSec * SECOND <= deadline
  }

  /** Exactly which requests are accepted: under the frozen policy, those with a sensible duration that
      lie wholly inside one intended window, unless they start on a Monday before 08:00; none of those
      is accepted, although the weekend is then still open. */
  lemma {:induction false} AcceptedIffInsideWindow(p: Policy, start: Instant, expectedSec: int, maxSec: int)
    ensures ValidateRequest(p, start, expectedSec, maxSec).Ok? <==>
            && PolicyOk(p) && p.shortLimitSec > 0 && 0 < expectedSec <= maxSec
            && FitsIntended(start, maxSec) && !MondayMorning(start)
  {
    if PolicyOk(p) && p.shortLimitSec > 0 && 0 < expectedSec <= maxSec {
      AcceptedIffFits(p, start, expectedSec, maxSec);
    }
  }

  lemma AcceptedIffFits(p: Policy, start: Instant, expectedSec: int, maxSec: int)
    requires PolicyOk(p) && p.shortLimitSec > 0 && 0 < expectedSec <= maxSec
    ensures ValidateRequest(p, start, expectedSec, maxSec).Ok? <==> FitsIntended(start, maxSec) && !MondayMorning(start)
  {
    ClosedExactlyInWorkingHours(p, start);
    if Resolve(p, start).value.Open? {
      var day := OpenWindowIsIntended(p, start);
      var w := Resolve(p, start).value;
      if FitsIntended(start, maxSec) && !MondayMorning(start) {
        var d, kind, opensAt, deadline :|
          IntendedWindow(d, kind, opensAt, deadline) && opensAt <= start && start + maxSec * SECOND <= deadline;
        IntendedWindowIsUnique(start, d, kind, opensAt, deadline);
        IntendedWindowIsUnique(start, day, w.kind, w.opensAt, w.deadline);
      }
    } else if FitsIntended(start, maxSec) {
      var d, kind, opensAt, deadline :|
        IntendedWindow(d, kind, opensAt, deadline) && opensAt <= start && start + maxSec * SECOND <= deadline;
      IntendedWindowIsUnique(start, d, kind, opensAt, deadline);
    }
  }

  /** Safety of a grant: the whole granted runtime stays inside one window, and a window never reaches
      into working hours. */
  lemma {:induction false} GrantStaysInWindow(p: Policy, start: Instant, expectedSec: int, maxSec: int, t: Instant)
    requires ValidateRequest(p, start, expectedSec, maxSec).Ok? && start <= t < start + maxSec * SECOND
    ensures !WorkingHours(t)
    ensures var w := ValidateRequest(p, start, expectedSec, maxSec).value.window; w.opensAt <= t < w.deadline && w.startAllowed
  {
    ClosedExactlyInWorkingHours(p, start);
    var day := OpenWindowIsIntended(p, start);
    var w := Resolve(p, start).value;
    assert maxSec * SECOND >= SECOND;
    IntendedWindowIsUnique(t, day, w.kind, w.opensAt, w.deadline);
  }

  // ---- What else an answer says ----

  /** The one calendar that is accepted; the approval lead and the limit of short tasks are free. */
  const FROZEN := Policy(true, "Europe/Volgograd", 180, 1_140, 480, "FRIDAY 19:00", "MONDAY 08:00", 0, 0)

  /** Every policy with another calendar, or a lead outside twelve hours, is refused, and no other. */
  lemma PolicyIsFrozen(p: Policy, now: Instant)
    ensures Resolve(p, now) == Err(BadPolicy) <==>
            !(p.(leadMinutes := 0, shortLimitSec := 0) == FROZEN && 0 <= p.leadMinutes <= 720)
    ensures Resolve(p, now).Err? ==> Resolve(p, now).error == BadPolicy
  {
  }

  /** An open answer counts the whole seconds left to the deadline, none after it, and admits a start while there
      is one left; a closed one asks for approval the lead before the opening, and no earlier. */
  lemma AnswerCountsDown(p: Policy, now: Instant)
    requires PolicyOk(p)
    ensures var w := Resolve(p, now).value;
            && (w.Open? && !MondayMorning(now) ==>
                  w.remainingSec * SECOND <= w.deadline - now < (w.remainingSec + 1) * SECOND)
            && (w.Open? ==> (w.startAllowed <==> w.deadline - now >= SECOND))
            && (w.Closed? ==>
                  && w.nextOpensAt - w.approvalAt == p.leadMinutes * 60 * SECOND
                  && (w.approvalDue <==> w.nextOpensAt - now <= p.leadMinutes * 60 * SECOND))
  {
    DayAndClock(now);
  }

  /** Why a request is refused, in this order, and what a grant says: it ends its whole seconds after its start
      and is a long campaign exactly when it exceeds the limit of short tasks. */
  lemma RequestExactly(p: Policy, start: Instant, expectedSec: int, maxSec: int)
    ensures var r := ValidateRequest(p, start, expectedSec, maxSec);
            var sensible := 0 < expectedSec <= maxSec;
            var usable := sensible && p.shortLimitSec > 0 && PolicyOk(p);
            && (r == Err(BadDuration) <==> !sensible)
            && (r == Err(BadPolicy) <==> sensible && !(p.shortLimitSec > 0 && PolicyOk(p)))
            && (r == Err(NotOpen) <==> usable && WorkingHours(start))
            && (r == Err(PastDeadline) <==> usable && !WorkingHours(start) && !(FitsIntended(start, maxSec) && !MondayMorning(start)))
            && (r.Ok? ==> r.value.end - start == maxSec * SECOND && (r.value.longCampaign <==> maxSec > p.shortLimitSec)
                          && Resolve(p, start) == Ok(r.value.window))
  {
    AcceptedIffInsideWindow(p, start, expectedSec, maxSec);
    if PolicyOk(p) { ClosedExactlyInWorkingHours(p, start); }
    hide Resolve, FitsIntended, PolicyOk;
    if ValidateRequest(p, start, expectedSec, maxSec).Err? && Resolve(p, start).Err? { PolicyIsFrozen(p, start); }
  }
}
