/**
 * Times of day as the report's four time fields hold them (`HH:MM`), and the
 * midnight-aware duration between two of them (`calculate_time_difference`)
 * together with its `HH:MM` rendering (`format_time`).
 */
module Clock {
  import opened Wrappers
  import opened Numerals

  const MinutesPerHour := 60
  const MinutesPerDay := 1440

  /** A parsed time of day; only hours 0..23 and minutes 0..59 exist. */
  datatype Clock = Clock(hour: nat, minute: nat)
  type TimeOfDay = t: Clock | t.hour < 24 && t.minute < 60 witness Clock(0, 0)

  /** Minutes since midnight. */
  function Minutes(t: TimeOfDay): (m: nat)
    ensures m < MinutesPerDay
    ensures m / MinutesPerHour == t.hour && m % MinutesPerHour == t.minute
  {
    t.hour * MinutesPerHour + t.minute
  }

  /** The shape `DD:DD`, before any range check. */
  predicate IsClockShape(s: string) {
    |s| == 5 && IsDigit(s[0]) && IsDigit(s[1]) && s[2] == ':' && IsDigit(s[3]) && IsDigit(s[4])
  }

  /** The two numbers of a `DD:DD` string, without range checks. */
  function ClockFields(s: string): (r: Option<(nat, nat)>)
    ensures r.Some? <==> IsClockShape(s)
    ensures r.Some? ==> r.value.0 < 100 && r.value.1 < 100
  {
    if IsClockShape(s) then
      Some((10 * DigitValue(s[0]) + DigitValue(s[1]), 10 * DigitValue(s[3]) + DigitValue(s[4])))
    else None
  }

  /** A `%H` field of `strptime`: one digit, or two digits making at most 23. */
  predicate IsHourText(h: string) {
    IsDigitString(h) && (|h| == 1 || (|h| == 2 && ValueOf(h) <= 23))
  }

  /** A `%M` field of `strptime`: one digit, or two digits making at most 59. */
  predicate IsMinuteText(m: string) {
    IsDigitString(m) && (|m| == 1 || (|m| == 2 && ValueOf(m) <= 59))
  }

  /** The time an hour field and a minute field stand for. */
  function ParseFields(h: string, m: string): (r: Option<TimeOfDay>)
    ensures r.Some? <==> IsHourText(h) && IsMinuteText(m)
    ensures r.Some? ==> r.value.hour == ValueOf(h) && r.value.minute == ValueOf(m)
  {
    if IsHourText(h) && IsMinuteText(m) then Some(Clock(ValueOf(h), ValueOf(m))) else None
  }

  /**
   * `datetime.strptime(s, '%H:%M')`: an hour field, a colon and a minute
   * field, with nothing left over. A first digit followed by the colon is a
   * one-digit hour; otherwise the hour takes two characters.
   */
  function ParseTime(s: string): (r: Option<TimeOfDay>)
    ensures r.Some? ==> 3 <= |s| <= 5
    ensures r.Some? ==>
      var i := if s[1] == ':' then 1 else 2;
      && s[i] == ':' && IsHourText(s[..i]) && IsMinuteText(s[i + 1..])
      && r.value == Clock(ValueOf(s[..i]), ValueOf(s[i + 1..]))
  {
    if 3 <= |s| && s[1] == ':' then ParseFields(s[..1], s[2..])
    else if 4 <= |s| && s[2] == ':' then ParseFields(s[..2], s[3..])
    else None
  }

  /** `format_time`: `f"{m // 60:02d}:{m % 60:02d}"`. */
  function FormatTime(m: nat): (s: string)
    ensures |s| >= 5 && s[|s| - 3] == ':'
    ensures m < 100 * MinutesPerHour <==> |s| == 5
  {
    Pad2(m / MinutesPerHour) + ":" + Pad2(m % MinutesPerHour)
  }

  /** Formatting a time of day as `HH:MM`. */
  function FormatClock(t: TimeOfDay): string {
    FormatTime(Minutes(t))
  }

  /**
   * `calculate_time_difference` on parsed times: the minutes from `start`
   * forward to the next occurrence of `end`, crossing midnight at most once.
   */
  function MinutesBetween(start: TimeOfDay, end: TimeOfDay): (d: nat)
    ensures d < MinutesPerDay
    ensures (Minutes(start) + d) % MinutesPerDay == Minutes(end)
  {
    var diff := Minutes(end) - Minutes(start);
    if diff < 0 then diff + MinutesPerDay else diff
  }

  /**
   * `calculate_time_difference` on the field texts: the start text is parsed
   * first, so a malformed start is the one reported.
   */
  function TimeDifference(startText: string, endText: string): (r: Result<nat, string>)
    ensures r.Ok? <==> ParseTime(startText).Some? && ParseTime(endText).Some?
    ensures r.Ok? ==> r.value == MinutesBetween(ParseTime(startText).value, ParseTime(endText).value)
    ensures r.Err? ==> r.error == if ParseTime(startText).None? then startText else endText
  {
    match ParseTime(startText)
    case None => Err(startText)
    case Some(start) =>
      match ParseTime(endText)
      case None => Err(endText)
      case Some(end) => Ok(MinutesBetween(start, end))
  }

  // ----- properties -----

  /** A duration below 100 hours renders as `HH:MM` and reads back to itself. */
  lemma FormatTimeRoundTrip(m: nat)
    requires m < 100 * MinutesPerHour
    ensures |FormatTime(m)| == 5
    ensures ClockFields(FormatTime(m)) == Some((m / MinutesPerHour, m % MinutesPerHour))
  {
    var s := FormatTime(m);
    var hh, mm := Pad2(m / MinutesPerHour), Pad2(m % MinutesPerHour);
    assert s[..2] == hh && s[3..] == mm;
    TwoDigitValue(hh);
    TwoDigitValue(mm);
  }

  /** Every time of day renders to a string that parses back to it. */
  lemma ParseFormatClock(t: TimeOfDay)
    ensures IsClockShape(FormatClock(t))
    ensures ParseTime(FormatClock(t)) == Some(t)
  {
    var s := FormatClock(t);
    FormatTimeRoundTrip(Minutes(t));
    var hh, mm := Pad2(t.hour), Pad2(t.minute);
    assert s == hh + ":" + mm;
    assert s[..2] == hh && s[3..] == mm;
  }

  /** An hour field, a colon and a minute field parse to the values of the two fields. */
  lemma ParseTimeOf(h: string, m: string)
    requires IsHourText(h) && IsMinuteText(m)
    ensures ParseTime(h + ":" + m) == Some(Clock(ValueOf(h), ValueOf(m)))
  {
    var s := h + ":" + m;
    if |h| == 1 {
      assert s[1] == ':' && s[..1] == h && s[2..] == m;
      assert ParseTime(s) == ParseFields(h, m);
    } else {
      assert IsDigit(h[1]);
      assert s[1] == h[1] && s[2] == ':' && s[..2] == h && s[3..] == m;
      assert ParseTime(s) == ParseFields(h, m);
    }
  }

  /** On the strict `DD:DD` shape the parser reads the two two-digit numbers and checks their ranges. */
  lemma ParseTimeStrict(s: string)
    requires IsClockShape(s)
    ensures var (h, m) := ClockFields(s).value;
      ParseTime(s) == if h < 24 && m < 60 then Some(Clock(h, m)) else None
  {
    var hh, mm := s[..2], s[3..];
    assert IsDigitString(hh) && IsDigitString(mm);
    TwoDigitValue(hh);
    TwoDigitValue(mm);
  }

  /** A five-character string the parser accepts is exactly the rendering of what it parsed. */
  lemma FormatParseClock(s: string)
    requires ParseTime(s).Some? && |s| == 5
    ensures FormatClock(ParseTime(s).value) == s
  {
    var t := ParseTime(s).value;
    var hh, mm := s[..2], s[3..];
    Pad2OfTwoDigits(hh);
    Pad2OfTwoDigits(mm);
    assert FormatClock(t) == Pad2(ValueOf(hh)) + ":" + Pad2(ValueOf(mm));
    assert s == hh + ":" + mm;
  }

  /** One-digit fields are accepted, and so is every two-digit field in range. */
  lemma ParseTimeAccepts()
    ensures ParseTime("7:5") == Some(Clock(7, 5)) && ParseTime("07:5") == Some(Clock(7, 5))
    ensures ParseTime("23:59") == Some(Clock(23, 59)) && ParseTime("00:00") == Some(Clock(0, 0))
  {
    ParseTimeShort();
    ParseTimeFull();
  }

  lemma ParseTimeShort()
    ensures ParseTime("7:5") == Some(Clock(7, 5)) && ParseTime("07:5") == Some(Clock(7, 5))
  {
    assert "7" + ":" + "5" == "7:5" && "07" + ":" + "5" == "07:5";
    TwoDigitValue("07");
    ParseTimeOf("7", "5");
    ParseTimeOf("07", "5");
  }

  lemma ParseTimeFull()
    ensures ParseTime("23:59") == Some(Clock(23, 59)) && ParseTime("00:00") == Some(Clock(0, 0))
  {
    ParseTimeStrict("23:59");
    ParseTimeStrict("00:00");
  }

  /** Out-of-range fields, extra digits and other shapes are rejected. */
  lemma ParseTimeRejects()
    ensures ParseTime("24:00").None? && ParseTime("12:60").None? && ParseTime("123:00").None?
    ensures ParseTime("12:345").None? && ParseTime("").None? && ParseTime("12-30").None?
  {
    TwoDigitValue("24");
    TwoDigitValue("60");
  }

  /** The duration is the plain difference unless the end is earlier, then one day is added. */
  lemma MinutesBetweenCases(start: TimeOfDay, end: TimeOfDay)
    ensures Minutes(start) <= Minutes(end) ==> MinutesBetween(start, end) == Minutes(end) - Minutes(start)
    ensures Minutes(end) < Minutes(start) ==>
              MinutesBetween(start, end) == MinutesPerDay - (Minutes(start) - Minutes(end))
    ensures MinutesBetween(start, end) == 0 <==> start == end
  {
  }

  /** Going from `a` to `b` and on from `b` to `a` takes a whole day, unless `a == b`. */
  lemma MinutesBetweenOpposite(a: TimeOfDay, b: TimeOfDay)
    ensures a != b ==> MinutesBetween(a, b) + MinutesBetween(b, a) == MinutesPerDay
  {
  }
}
