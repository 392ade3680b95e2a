/** The arithmetic of LiveTimer's `updateTimer`: the elapsed time since the
    session start, split with integer floor division and JavaScript `%`, and
    rendered as "HH:MM:SS". The React state and the one-second interval that
    re-run it are not part of this model. */
module LiveTimer {

  import opened Common
  import opened Duration

  /** `diff = now - start`, then `Math.floor(diff / 3600000)`,
      `Math.floor((diff % 3600000) / 60000)` and `Math.floor((diff % 60000) / 1000)`.
      Dafny's `/` by a positive divisor is floor division, as `Math.floor` of a quotient is. */
  function TimerFields(start: int, now: int): Clock {
    var diff := now - start;
    Clock(diff / MsPerHour, JsRem(diff, MsPerHour) / MsPerMinute, JsRem(diff, MsPerMinute) / MsPerSecond)
  }

  /** For a non-negative elapsed time the timer's fields are the hours,
      minutes and seconds of the elapsed time. */
  lemma TimerFieldsAreBreakdown(start: int, now: int)
    requires now >= start
    ensures TimerFields(start, now) == Breakdown(now - start)
  {
    MinuteRemainder(now - start);
  }

  /** The text the timer shows. */
  function TimerText(start: int, now: int): string {
    ClockString(TimerFields(start, now))
  }

  /** For a non-negative elapsed time, the timer's fields are bounded and
      rebuild the elapsed time to within one second. */
  lemma TimerFieldBounds(start: int, now: int)
    requires now >= start
    ensures var c := TimerFields(start, now);
      && 0 <= c.hours && 0 <= c.minutes < 60 && 0 <= c.seconds < 60
      && c.hours * MsPerHour + c.minutes * MsPerMinute + c.seconds * MsPerSecond <= now - start
      && now - start < c.hours * MsPerHour + c.minutes * MsPerMinute + c.seconds * MsPerSecond + MsPerSecond
  {
    TimerFieldsAreBreakdown(start, now);
  }

  /** The timer and the routes' `formattedWithSeconds` agree on every
      non-negative elapsed time (under exact arithmetic). */
  lemma TimerMatchesRoutes(start: int, now: int)
    requires now >= start
    ensures TimerText(start, now) == RouteDuration(now - start).formattedWithSeconds
  {
    var ms := now - start;
    RouteFieldsExact(ms);
    TimerFieldsAreBreakdown(start, now);
    assert TimerFields(start, now) == RouteFields(ms);
    assert RouteDuration(ms).formattedWithSeconds == ClockString(RouteFields(ms));
  }

  /** The timer text reads back as the exact breakdown of the elapsed time;
      in particular hours of 100 or more are not cut to two digits. */
  lemma TimerTextReadsBack(start: int, now: int)
    requires now >= start
    ensures ParseClockString(TimerText(start, now)) == Some(Breakdown(now - start))
  {
    ClockStringRoundTrip(Breakdown(now - start));
    TimerFieldsAreBreakdown(start, now);
  }
}
