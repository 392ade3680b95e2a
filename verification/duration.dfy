/** Elapsed-time arithmetic and formatting shared by the time routes
    (clock-out, current-session, sessions) and the LiveTimer component.

    The routes work on JavaScript numbers: `hours = ms / 3600000`, then
    `Math.floor(hours)`, `Math.floor((hours % 1) * 60)` and
    `Math.floor((ms % 60000) / 1000)`. The model uses exact reals for those
    floats, so rounding of binary floating point is not captured. */
module Duration {

  import opened Common

  const MsPerSecond: int := 1000
  const MsPerMinute: int := 60000
  const MsPerHour: int := 3600000

  // ---------------------------------------------------------------------
  // Decimal rendering (Number.prototype.toString on integers) and padStart

  predicate IsDigit(c: char) { '0' <= c <= '9' }

  predicate AllDigits(s: string) { forall i :: 0 <= i < |s| ==> IsDigit(s[i]) }

  function DigitChar(d: nat): (c: char)
    requires d < 10
    ensures IsDigit(c)
  {
    ('0' as int + d) as char
  }

  function DigitValue(c: char): (d: nat)
    requires IsDigit(c)
    ensures d < 10
  {
    c as int - '0' as int
  }

  /** Decimal digits of a non-negative integer, without leading zeros. */
  function NatToDecimal(n: nat): (s: string)
    ensures 1 <= |s|
    ensures AllDigits(s)
    ensures n > 0 ==> s[0] != '0'
    ensures |s| == 1 <==> n < 10
  {
    if n < 10 then [DigitChar(n)] else NatToDecimal(n / 10) + [DigitChar(n % 10)]
  }

  /** The number written by a string of decimal digits (leading zeros allowed). */
  function DecimalValue(s: string): nat
    requires AllDigits(s)
  {
    if s == [] then 0 else DecimalValue(s[..|s| - 1]) * 10 + DigitValue(s[|s| - 1])
  }

  /** Reading back the decimal rendering gives the number again. */
  lemma {:induction false} DecimalRoundTrip(n: nat)
    ensures DecimalValue(NatToDecimal(n)) == n
  {
    if n >= 10 {
      var s := NatToDecimal(n);
      assert s[..|s| - 1] == NatToDecimal(n / 10);
      DecimalRoundTrip(n / 10);
    }
  }

  /** A leading '0' does not change the number a digit string denotes. */
  lemma {:induction false} LeadingZeroValue(s: string)
    requires AllDigits(s)
    ensures DecimalValue("0" + s) == DecimalValue(s)
  {
    if s != [] {
      var t := "0" + s;
      assert t[..|t| - 1] == "0" + s[..|s| - 1];
      LeadingZeroValue(s[..|s| - 1]);
    }
  }

  /** `n.toString()` for an integer-valued number. */
  function IntToDecimal(n: int): (s: string)
    ensures n >= 0 ==> s == NatToDecimal(n)
    ensures n < 0 ==> s == "-" + NatToDecimal(-n)
  {
    if n < 0 then "-" + NatToDecimal(-n) else NatToDecimal(n)
  }

  /** `s.padStart(width, fill)`: pads on the left, never truncates. */
  function PadStart(s: string, width: nat, fill: char): (r: string)
    ensures |r| == if |s| >= width then |s| else width
    ensures r[|r| - |s|..] == s
    ensures forall i :: 0 <= i < |r| - |s| ==> r[i] == fill
  {
    if |s| >= width then s else seq(width - |s|, _ => fill) + s
  }

  function Pad2(n: int): string { PadStart(IntToDecimal(n), 2, '0') }

  /** A padded non-negative field still denotes its number. */
  lemma Pad2Value(n: nat)
    ensures AllDigits(Pad2(n)) && DecimalValue(Pad2(n)) == n
    ensures n < 100 ==> |Pad2(n)| == 2
    ensures |Pad2(n)| >= 2
  {
    var d := NatToDecimal(n);
    DecimalRoundTrip(n);
    if |d| < 2 {
      assert Pad2(n) == "0" + d;
      LeadingZeroValue(d);
    }
    if n >= 10 && n < 100 {
      assert NatToDecimal(n / 10) == [DigitChar(n / 10)];
    }
  }

  // ---------------------------------------------------------------------
  // Hours, minutes and seconds

  datatype Clock = Clock(hours: int, minutes: int, seconds: int)

  /** `HH:MM:SS`: each field rendered in decimal and left-padded to two characters. */
  function ClockString(c: Clock): string {
    Pad2(c.hours) + ":" + Pad2(c.minutes) + ":" + Pad2(c.seconds)
  }

  /** Exact integer breakdown of a non-negative millisecond count. */
  function Breakdown(ms: nat): (c: Clock)
    ensures 0 <= c.hours && 0 <= c.minutes < 60 && 0 <= c.seconds < 60
    ensures c.hours * MsPerHour + c.minutes * MsPerMinute + c.seconds * MsPerSecond <= ms
    ensures ms < c.hours * MsPerHour + c.minutes * MsPerMinute + c.seconds * MsPerSecond + MsPerSecond
  {
    var h, rh := ms / MsPerHour, ms % MsPerHour;
    var m, rm := rh / MsPerMinute, rh % MsPerMinute;
    var s := rm / MsPerSecond;
    assert ms == h * MsPerHour + rh;
    assert rh == m * MsPerMinute + rm;
    assert rm < MsPerSecond * 60;
    Clock(h, m, s)
  }

  /** Adding whole minutes does not change the remainder modulo a minute. */
  lemma {:induction false} AddWholeMinutes(x: int, k: nat)
    ensures (x + k * 60000) % 60000 == x % 60000
  {
    if k > 0 {
      AddWholeMinutes(x, k - 1);
      assert x + k * 60000 == (x + (k - 1) * 60000) + 60000;
    }
  }

  /** Within an hour, the remainder modulo a minute is that of the whole count. */
  lemma MinuteRemainder(ms: nat)
    ensures (ms % MsPerHour) % MsPerMinute == ms % MsPerMinute
  {
    var h, rh := ms / 3600000, ms % 3600000;
    assert ms == rh + (h * 60) * 60000;
    AddWholeMinutes(rh, h * 60);
  }

  // ---------------------------------------------------------------------
  // JavaScript operators

  /** JavaScript `%` on integers: the remainder takes the sign of the dividend. */
  function JsRem(a: int, b: int): (r: int)
    requires b > 0
    ensures a >= 0 ==> r == a % b
    ensures a < 0 ==> -b < r <= 0
  {
    if a >= 0 then a % b else -((-a) % b)
  }

  /** JavaScript `x % 1` on a number: the fractional part, with the sign of `x`. */
  function JsFrac(x: real): (f: real)
    ensures x >= 0.0 ==> 0.0 <= f < 1.0 && f == x - x.Floor as real
    ensures x < 0.0 ==> -1.0 < f <= 0.0
  {
    if x >= 0.0 then x - x.Floor as real else x + (-x).Floor as real
  }

  lemma FloorOfQuotient(a: int, b: int)
    requires b > 0
    ensures (a as real / b as real).Floor == a / b
  {
    var q, r := a / b, a % b;
    var x := a as real / b as real;
    assert a as real == q as real * b as real + r as real;
    assert x == q as real + r as real / b as real;
    assert 0.0 <= r as real / b as real < 1.0;
  }

  // ---------------------------------------------------------------------
  // The routes' duration record

  datatype DurationRecord = DurationRecord(
    milliseconds: int,
    hours: real,
    formatted: string,            // "{h}h {m}m"
    formattedWithSeconds: string) // "HH:MM:SS"

  function HoursOf(ms: int): real { ms as real / MsPerHour as real }

  /** The three fields as the routes compute them from a number of milliseconds. */
  function RouteFields(ms: int): Clock {
    var hours := HoursOf(ms);
    Clock(hours.Floor, (JsFrac(hours) * 60.0).Floor, (JsRem(ms, MsPerMinute) as real / MsPerSecond as real).Floor)
  }

  /** The `duration` object built by clock-out, current-session and sessions. */
  function RouteDuration(ms: int): (d: DurationRecord)
    ensures d.milliseconds == ms
  {
    var c := RouteFields(ms);
    DurationRecord(ms, HoursOf(ms),
                   IntToDecimal(c.hours) + "h " + IntToDecimal(c.minutes) + "m",
                   ClockString(c))
  }

  /** Under exact arithmetic the floating-point recipe of the routes yields the
      integer breakdown: hours, minutes of the hour, seconds of the minute. */
  lemma RouteFieldsExact(ms: nat)
    ensures RouteFields(ms) == Breakdown(ms)
  {
    var hours := HoursOf(ms);
    var h, rh := ms / MsPerHour, ms % MsPerHour;
    FloorOfQuotient(ms, MsPerHour);
    assert hours.Floor == h;
    assert JsFrac(hours) * 60.0 == rh as real / MsPerMinute as real by {
      assert ms as real == h as real * MsPerHour as real + rh as real;
    }
    FloorOfQuotient(rh, MsPerMinute);
    FloorOfQuotient(ms % MsPerMinute, MsPerSecond);
    MinuteRemainder(ms);
  }

  /** `hours` is the exact number of hours in `milliseconds` (under exact
      arithmetic), of either sign. */
  lemma RouteDurationHours(ms: int)
    ensures RouteDuration(ms).hours * MsPerHour as real == ms as real
    ensures ms >= 0 ==> RouteDuration(ms).hours >= 0.0
  {
  }

  /** For a non-negative count, `formatted` is "{h}h {m}m" and `formattedWithSeconds`
      is "HH:MM:SS" over the exact breakdown, with minutes and seconds below 60
      and the fields reconstructing the count to the second. */
  lemma RouteDurationFormats(ms: nat)
    ensures var c := Breakdown(ms);
      && 0 <= c.minutes < 60 && 0 <= c.seconds < 60
      && c.hours * MsPerHour + c.minutes * MsPerMinute + c.seconds * MsPerSecond <= ms
      && RouteDuration(ms).formatted == NatToDecimal(c.hours) + "h " + NatToDecimal(c.minutes) + "m"
      && RouteDuration(ms).formattedWithSeconds == ClockString(c)
  {
    RouteFieldsExact(ms);
  }

  // ---------------------------------------------------------------------
  // Reading "HH:MM:SS" back

  /** Splits "H...H:MM:SS" into its three numbers; the last two fields have
      exactly two digits, the first at least two. */
  function ParseClockString(s: string): (r: Option<Clock>)
    ensures r.Some? ==> |s| >= 8 && s[|s| - 3] == ':' && s[|s| - 6] == ':'
  {
    if |s| >= 8 && s[|s| - 3] == ':' && s[|s| - 6] == ':'
       && AllDigits(s[..|s| - 6]) && AllDigits(s[|s| - 5..|s| - 3]) && AllDigits(s[|s| - 2..])
    then Some(Clock(DecimalValue(s[..|s| - 6]), DecimalValue(s[|s| - 5..|s| - 3]), DecimalValue(s[|s| - 2..])))
    else None
  }

  lemma JoinedSlices(a: string, b: string, c: string)
    requires |a| >= 2 && |b| == 2 && |c| == 2
    ensures var s := a + ":" + b + ":" + c;
      && |s| >= 8 && s[|s| - 3] == ':' && s[|s| - 6] == ':'
      && s[..|s| - 6] == a && s[|s| - 5..|s| - 3] == b && s[|s| - 2..] == c
  {
    var s := a + ":" + b + ":" + c;
    assert s[..|s| - 6] == a;
    assert s[|s| - 5..|s| - 3] == b;
    assert s[|s| - 2..] == c;
  }

  lemma ParseJoinedFields(a: string, b: string, c: string)
    requires |a| >= 2 && |b| == 2 && |c| == 2
    requires AllDigits(a) && AllDigits(b) && AllDigits(c)
    ensures ParseClockString(a + ":" + b + ":" + c) == Some(Clock(DecimalValue(a), DecimalValue(b), DecimalValue(c)))
  {
    JoinedSlices(a, b, c);
  }

  /** The HH:MM:SS rendering loses nothing: it reads back as the same clock. */
  lemma ClockStringRoundTrip(c: Clock)
    requires 0 <= c.hours && 0 <= c.minutes < 60 && 0 <= c.seconds < 60
    ensures ParseClockString(ClockString(c)) == Some(c)
  {
    Pad2Value(c.hours);
    Pad2Value(c.minutes);
    Pad2Value(c.seconds);
    ParseJoinedFields(Pad2(c.hours), Pad2(c.minutes), Pad2(c.seconds));
  }

  /** Worked example: 5025000 ms is 1h 23m 45s. */
  lemma OneHourTwentyThree()
    ensures RouteDuration(5025000).formatted == "1h 23m"
    ensures RouteDuration(5025000).formattedWithSeconds == "01:23:45"
  {
    RouteFieldsExact(5025000);
    assert Breakdown(5025000) == Clock(1, 23, 45);
    assert NatToDecimal(23) == "23";
    assert NatToDecimal(45) == "45";
  }
}
