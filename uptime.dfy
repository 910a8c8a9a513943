/**
 * The uptime the server reports (`Math.floor((Date.now() - startTime) /
 * 1000)` in server.js) and the way the page renders it (`formatUptime` in
 * public/app.js).  The clock is external: elapsed milliseconds are a
 * parameter.
 */
module Uptime {
  import opened Common

  /** Whole seconds in `elapsedMs` milliseconds, rounded down. */
  function UptimeSeconds(elapsedMs: nat): (s: nat)
    ensures s * 1000 <= elapsedMs < s * 1000 + 1000
  {
    elapsedMs / 1000
  }

  const SecondsUnit: string := "秒"
  const MinutesUnit: string := "分钟"
  const HoursUnit: string := "小时 "

  predicate IsDigit(c: char) {
    '0' <= c <= '9'
  }

  function DigitChar(d: nat): (c: char)
    requires d < 10
    ensures IsDigit(c) && DigitValue(c) == d
  {
    ['0', '1', '2', '3', '4', '5', '6', '7', '8', '9'][d]
  }

  /** How a template literal prints a non-negative integer: decimal digits, no leading zero. */
  function Decimal(n: nat): (s: string)
    ensures |s| > 0 && forall i :: 0 <= i < |s| ==> IsDigit(s[i])
    ensures n == 0 <==> s == "0"
    ensures |s| > 1 ==> s[0] != '0'
  {
    if n < 10 then [DigitChar(n)] else Decimal(n / 10) + [DigitChar(n % 10)]
  }

  function DigitValue(c: char): (d: nat)
    requires IsDigit(c)
    ensures d < 10
  {
    (c as int) - ('0' as int)
  }

  /** The value of a string of decimal digits. */
  function DigitsValue(s: string): nat
    requires forall i :: 0 <= i < |s| ==> IsDigit(s[i])
    decreases |s|
  {
    if s == [] then 0
    else DigitsValue(s[..|s| - 1]) * 10 + DigitValue(s[|s| - 1])
  }

  /** Reading the digits back yields the number printed. */
  lemma {:induction false} DecimalRoundTrip(n: nat)
    ensures DigitsValue(Decimal(n)) == n
  {
    if n >= 10 {
      DecimalRoundTrip(n / 10);
      var s := Decimal(n);
      assert s[..|s| - 1] == Decimal(n / 10);
    }
  }

  /** The length of the longest prefix of `s` made of digits. */
  function DigitSpan(s: string): (k: nat)
    ensures k <= |s|
    ensures forall i :: 0 <= i < k ==> IsDigit(s[i])
    ensures k < |s| ==> !IsDigit(s[k])
  {
    if s != [] && IsDigit(s[0]) then 1 + DigitSpan(s[1..]) else 0
  }

  /** The three shapes `formatUptime` prints. */
  datatype Reading = Seconds(seconds: nat) | Minutes(minutes: nat) | HoursMinutes(hours: nat, minutes: nat)

  /**
   * Which shape `formatUptime` prints and with which numbers: whole
   * seconds below a minute, whole minutes (1 to 59) below an hour, and
   * otherwise at least one hour and the leftover minutes (0 to 59).  In
   * every case the printed time is the uptime rounded down to its unit.
   */
  function Breakdown(seconds: nat): (r: Reading)
    ensures seconds < 60 ==> r == Seconds(seconds)
    ensures 60 <= seconds < 3600 ==>
      && r.Minutes? && 1 <= r.minutes <= 59
      && r.minutes * 60 <= seconds < r.minutes * 60 + 60
    ensures 3600 <= seconds ==>
      && r.HoursMinutes? && r.hours >= 1 && r.minutes <= 59
      && r.hours * 3600 + r.minutes * 60 <= seconds < r.hours * 3600 + r.minutes * 60 + 60
  {
    if seconds < 60 then Seconds(seconds)
    else if seconds < 3600 then Minutes(seconds / 60)
    else HoursMinutes(seconds / 3600, (seconds % 3600) / 60)
  }

  function Render(r: Reading): string {
    match r
    case Seconds(s) => Decimal(s) + SecondsUnit
    case Minutes(m) => Decimal(m) + MinutesUnit
    case HoursMinutes(h, m) => Decimal(h) + HoursUnit + Decimal(m) + MinutesUnit
  }

  /** `formatUptime(seconds)` (public/app.js:84-88). */
  function FormatUptime(seconds: nat): (s: string)
    ensures s == Render(Breakdown(seconds))
  {
    if seconds < 60 then Decimal(seconds) + SecondsUnit
    else if seconds < 3600 then Decimal(seconds / 60) + MinutesUnit
    else Decimal(seconds / 3600) + HoursUnit + Decimal((seconds % 3600) / 60) + MinutesUnit
  }

  /** Reads a rendered uptime back: leading digits, then a unit. */
  function Parse(s: string): Option<Reading> {
    var k := DigitSpan(s);
    if k == 0 then None
    else
      var first := DigitsValue(s[..k]);
      var rest := s[k..];
      if rest == SecondsUnit then Some(Seconds(first))
      else if rest == MinutesUnit then Some(Minutes(first))
      else if |rest| >= |HoursUnit| && rest[..|HoursUnit|] == HoursUnit then
        var tail := rest[|HoursUnit|..];
        var k2 := DigitSpan(tail);
        if k2 > 0 && tail[k2..] == MinutesUnit then Some(HoursMinutes(first, DigitsValue(tail[..k2])))
        else None
      else None
  }

  /** The digits of a number followed by a text that does not start with a digit. */
  lemma DigitSpanOfDecimal(n: nat, rest: string)
    requires rest == [] || !IsDigit(rest[0])
    ensures DigitSpan(Decimal(n) + rest) == |Decimal(n)|
    ensures (Decimal(n) + rest)[..|Decimal(n)|] == Decimal(n)
    ensures (Decimal(n) + rest)[|Decimal(n)|..] == rest
  {
  }

  /** A number followed by one unit reads back as that number and unit. */
  lemma SingleUnitRoundTrip(n: nat, unit: string)
    requires unit == SecondsUnit || unit == MinutesUnit
    ensures Parse(Decimal(n) + unit) == Some(if unit == SecondsUnit then Seconds(n) else Minutes(n))
  {
    DigitSpanOfDecimal(n, unit);
    DecimalRoundTrip(n);
  }

  /** Hours and minutes read back as the same pair. */
  lemma HoursMinutesRoundTrip(h: nat, m: nat)
    ensures Parse(Render(HoursMinutes(h, m))) == Some(HoursMinutes(h, m))
  {
    var tail := Decimal(m) + MinutesUnit;
    var rest := HoursUnit + tail;
    assert Render(HoursMinutes(h, m)) == Decimal(h) + rest;
    DigitSpanOfDecimal(h, rest);
    DecimalRoundTrip(h);
    assert rest[..|HoursUnit|] == HoursUnit;
    assert rest[|HoursUnit|..] == tail;
    DigitSpanOfDecimal(m, MinutesUnit);
    DecimalRoundTrip(m);
  }

  /** Every rendering reads back as the reading it came from, so different
      readings never print the same text. */
  lemma RenderRoundTrip(r: Reading)
    ensures Parse(Render(r)) == Some(r)
  {
    match r
    case Seconds(s) => SingleUnitRoundTrip(s, SecondsUnit);
    case Minutes(m) => SingleUnitRoundTrip(m, MinutesUnit);
    case HoursMinutes(h, m) => HoursMinutesRoundTrip(h, m);
  }

  /** What the page shows for a server uptime can be read back to the
      uptime's breakdown. */
  lemma FormattedUptimeReadsBack(elapsedMs: nat)
    ensures Parse(FormatUptime(UptimeSeconds(elapsedMs))) == Some(Breakdown(elapsedMs / 1000))
  {
    RenderRoundTrip(Breakdown(elapsedMs / 1000));
  }
}
