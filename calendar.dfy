/**
 * The date picker (`CalendarWidget`): stepping the shown month back and
 * forth, and the `DD.MM.YYYY` text it hands back when a day is chosen.
 *
 * `current_date` is a Python `datetime`; only its year, month and day take
 * part here. `datetime.replace` raises `ValueError` when the result is not a
 * date (a day the new month lacks, a year outside 1..9999); the handlers as
 * written inherit that, the corrected steps clamp the day instead.
 */
module Calendar {
  import opened Wrappers
  import opened Numerals

  const MinYear := 1
  const MaxYear := 9999

  /** The proleptic Gregorian leap-year rule that `datetime` follows. */
  predicate IsLeapYear(year: int) {
    year % 4 == 0 && (year % 100 != 0 || year % 400 == 0)
  }

  function DaysInMonth(year: int, month: int): (n: nat)
    requires 1 <= month <= 12
    ensures 28 <= n <= 31
    ensures n == 31 <==> month in {1, 3, 5, 7, 8, 10, 12}
    ensures n == 29 <==> month == 2 && IsLeapYear(year)
  {
    if month == 2 then (if IsLeapYear(year) then 29 else 28)
    else if month in {4, 6, 9, 11} then 30
    else 31
  }

  datatype Date = Date(year: int, month: int, day: int)

  /** A date `datetime` can represent. */
  predicate ValidDate(d: Date) {
    MinYear <= d.year <= MaxYear && 1 <= d.month <= 12 && 1 <= d.day <= DaysInMonth(d.year, d.month)
  }

  /** Months counted from January of year 0: stepping a month is adding or subtracting one. */
  function MonthNumber(d: Date): int {
    d.year * 12 + d.month - 1
  }

  /** `d.replace(year=year, month=month)`: the same day in another month, if that is a date. */
  function Replace(d: Date, year: int, month: int): (r: Option<Date>)
    requires 1 <= month <= 12
    ensures r.Some? ==> r.value == Date(year, month, d.day)
    ensures ValidDate(d) ==> (r.Some? <==> ValidDate(Date(year, month, d.day)))
  {
    if MinYear <= year <= MaxYear && 1 <= d.day <= DaysInMonth(year, month) then Some(Date(year, month, d.day))
    else None
  }

  /** `previous_month` as written: `None` where `replace` raises. */
  function MonthBeforeAsWritten(d: Date): (r: Option<Date>)
    ensures ValidDate(d) ==> (r.Some? <==> MonthBefore(d).Some? && MonthBefore(d).value.day == d.day)
    ensures ValidDate(d) && r.Some? ==> r == MonthBefore(d)
  {
    if d.month == 1 then Replace(d, d.year - 1, 12)
    else if 1 < d.month <= 12 then Replace(d, d.year, d.month - 1)
    else None
  }

  /** `next_month_handler` as written: `None` where `replace` raises. */
  function MonthAfterAsWritten(d: Date): (r: Option<Date>)
    ensures ValidDate(d) ==> (r.Some? <==> MonthAfter(d).Some? && MonthAfter(d).value.day == d.day)
    ensures ValidDate(d) && r.Some? ==> r == MonthAfter(d)
  {
    if d.month == 12 then Replace(d, d.year + 1, 1)
    else if 1 <= d.month < 12 then Replace(d, d.year, d.month + 1)
    else None
  }

  /** The same day in the given month, or the month's last day if it is shorter. */
  function ClampedDate(year: int, month: int, day: int): (r: Date)
    requires 1 <= month <= 12 && 1 <= day
    ensures r.year == year && r.month == month && 1 <= r.day <= DaysInMonth(year, month)
    ensures day <= DaysInMonth(year, month) ==> r.day == day
  {
    Date(year, month, if day <= DaysInMonth(year, month) then day else DaysInMonth(year, month))
  }

  /** Stepping back one month; only leaving the year range fails. */
  function MonthBefore(d: Date): (r: Option<Date>)
    requires ValidDate(d)
    ensures r.Some? <==> !(d.year == MinYear && d.month == 1)
    ensures r.Some? ==> ValidDate(r.value) && MonthNumber(r.value) == MonthNumber(d) - 1
    ensures r.Some? ==> r.value.day == if d.day <= DaysInMonth(r.value.year, r.value.month) then d.day
                                       else DaysInMonth(r.value.year, r.value.month)
  {
    if d.month == 1 then
      if d.year - 1 < MinYear then None else Some(ClampedDate(d.year - 1, 12, d.day))
    else Some(ClampedDate(d.year, d.month - 1, d.day))
  }

  /** Stepping forward one month; only leaving the year range fails. */
  function MonthAfter(d: Date): (r: Option<Date>)
    requires ValidDate(d)
    ensures r.Some? <==> !(d.year == MaxYear && d.month == 12)
    ensures r.Some? ==> ValidDate(r.value) && MonthNumber(r.value) == MonthNumber(d) + 1
    ensures r.Some? ==> r.value.day == if d.day <= DaysInMonth(r.value.year, r.value.month) then d.day
                                       else DaysInMonth(r.value.year, r.value.month)
  {
    if d.month == 12 then
      if d.year + 1 > MaxYear then None else Some(ClampedDate(d.year + 1, 1, d.day))
    else Some(ClampedDate(d.year, d.month + 1, d.day))
  }

  /** The month number fixes the year and the month. */
  lemma MonthNumberInjective(a: Date, b: Date)
    requires 1 <= a.month <= 12 && 1 <= b.month <= 12
    requires MonthNumber(a) == MonthNumber(b)
    ensures a.year == b.year && a.month == b.month
  {
  }

  /** Forward then back returns to the same year and month, and back then forward too. */
  lemma NextThenPrevious(d: Date)
    requires ValidDate(d)
    ensures MonthAfter(d).Some? ==> MonthBefore(MonthAfter(d).value).Some?
    ensures MonthAfter(d).Some? ==>
      var e := MonthBefore(MonthAfter(d).value).value; e.year == d.year && e.month == d.month
    ensures MonthBefore(d).Some? ==> MonthAfter(MonthBefore(d).value).Some?
    ensures MonthBefore(d).Some? ==>
      var e := MonthAfter(MonthBefore(d).value).value; e.year == d.year && e.month == d.month
  {
    if MonthAfter(d).Some? {
      var n := MonthAfter(d).value;
      MonthNumberInjective(MonthBefore(n).value, d);
    }
    if MonthBefore(d).Some? {
      var p := MonthBefore(d).value;
      MonthNumberInjective(MonthAfter(p).value, d);
    }
  }

  /** Where the handlers as written succeed, they undo each other exactly. */
  lemma AsWrittenAgrees(d: Date)
    requires ValidDate(d)
    ensures MonthAfterAsWritten(d).Some? ==> MonthBeforeAsWritten(MonthAfterAsWritten(d).value) == Some(d)
    ensures MonthBeforeAsWritten(d).Some? ==> MonthAfterAsWritten(MonthBeforeAsWritten(d).value) == Some(d)
  {
  }

  /** On the 31st of March, `<` raises: there is no 31st of February. So does `>` on the 31st of January. */
  lemma MonthStepAsWrittenRaises()
    ensures MonthBeforeAsWritten(Date(2025, 3, 31)).None?
    ensures MonthAfterAsWritten(Date(2025, 1, 31)).None?
    ensures MonthBefore(Date(2025, 3, 31)) == Some(Date(2025, 2, 28))
    ensures MonthAfter(Date(2024, 1, 31)) == Some(Date(2024, 2, 29))
  {
  }

  /** `on_day_select`: `f"{day:02d}.{month:02d}.{year}"`. */
  function DateText(day: nat, month: nat, year: nat): (s: string)
    ensures day < 100 && month < 100 ==>
      && |s| >= 7 && s[2] == '.' && s[5] == '.'
      && IsDigitString(s[..2]) && IsDigitString(s[3..5]) && IsDigitString(s[6..])
      && ValueOf(s[..2]) == day && ValueOf(s[3..5]) == month && ValueOf(s[6..]) == year
  {
    var s := Pad2(day) + "." + Pad2(month) + "." + Decimal(year);
    assert day < 100 && month < 100 ==> s[..2] == Pad2(day) && s[3..5] == Pad2(month) && s[6..] == Decimal(year);
    s
  }

  /** A four-digit year gives `DD.MM.YYYY`, and its three parts read back as the day, month and year. */
  lemma DateTextRoundTrip(day: nat, month: nat, year: nat)
    requires 1 <= day <= 31 && 1 <= month <= 12 && 1000 <= year <= MaxYear
    ensures var s := DateText(day, month, year);
      && |s| == 10 && s[2] == '.' && s[5] == '.'
      && IsDigitString(s[..2]) && IsDigitString(s[3..5]) && IsDigitString(s[6..])
      && ValueOf(s[..2]) == day && ValueOf(s[3..5]) == month && ValueOf(s[6..]) == year
  {
    var s := DateText(day, month, year);
    assert s[..2] == Pad2(day) && s[3..5] == Pad2(month) && s[6..] == Decimal(year);
  }

  /** The date picker: the date whose month it shows. */
  class CalendarWidget {
    var current: Date

    /** `current_date = datetime.now()`; the clock reading is the `today` parameter. */
    constructor (today: Date)
      requires ValidDate(today)
      ensures current == today
    {
      current := today;
    }

    /** The `<` button, with the day clamped; fails only before January of year 1. */
    method PreviousMonth() returns (raised: bool)
      requires ValidDate(current)
      modifies this
      ensures ValidDate(current)
      ensures raised <==> MonthBefore(old(current)).None?
      ensures current == if raised then old(current) else MonthBefore(old(current)).value
    {
      match MonthBefore(current) {
        case None => raised := true;
        case Some(d) => raised := false; current := d;
      }
    }

    /** The `>` button, with the day clamped; fails only after December of year 9999. */
    method NextMonthHandler() returns (raised: bool)
      requires ValidDate(current)
      modifies this
      ensures ValidDate(current)
      ensures raised <==> MonthAfter(old(current)).None?
      ensures current == if raised then old(current) else MonthAfter(old(current)).value
    {
      match MonthAfter(current) {
        case None => raised := true;
        case Some(d) => raised := false; current := d;
      }
    }

    /** Choosing a day of the shown month: the text passed to the callback. */
    method SelectDay(day: nat) returns (date: string)
      requires ValidDate(current) && 1 <= day <= DaysInMonth(current.year, current.month)
      ensures date == DateText(day, current.month, current.year)
      ensures current.year >= 1000 ==>
        |date| == 10 && IsDigitString(date[..2]) && IsDigitString(date[3..5]) && IsDigitString(date[6..]) &&
        ValueOf(date[..2]) == day && ValueOf(date[3..5]) == current.month &&
        ValueOf(date[6..]) == current.year
    {
      date := DateText(day, current.month, current.year);
      if current.year >= 1000 {
        DateTextRoundTrip(day, current.month, current.year);
      }
    }
  }
}
