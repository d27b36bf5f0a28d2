/**
 * Calendar arithmetic.  Dates are day numbers: the number of days since
 * 0001-01-01 of the proleptic Gregorian calendar (a Monday).  A calendar
 * date with year, month and day is what JavaScript's `getFullYear`,
 * `getMonth() + 1` and `getDate()` report for a local date.
 */
module Calendar {
  import opened Wrappers
  import opened Text

  datatype Civil = Civil(year: int, month: int, day: int)

  predicate IsLeapYear(y: int) { y % 4 == 0 && (y % 100 != 0 || y % 400 == 0) }

  function DaysInMonth(y: int, m: int): (n: int)
    requires 1 <= m <= 12
    ensures 28 <= n <= 31
    ensures m == 2 ==> (n == 29 <==> IsLeapYear(y))
  {
    if m == 2 then (if IsLeapYear(y) then 29 else 28)
    else if m == 4 || m == 6 || m == 9 || m == 11 then 30
    else 31
  }

  predicate Valid(c: Civil)
  {
    1 <= c.year && 1 <= c.month <= 12 && 1 <= c.day <= DaysInMonth(c.year, c.month)
  }

  function DaysBeforeYear(y: int): int
    requires 1 <= y
  {
    var p := y - 1;
    365 * p + p / 4 - p / 100 + p / 400
  }

  /** Days of the year before the first of month `m`. */
  function DaysBeforeMonth(y: int, m: int): nat
    requires 1 <= m <= 12
  {
    [0, 31, 59, 90, 120, 151, 181, 212, 243, 273, 304, 334][m - 1]
    + (if m > 2 && IsLeapYear(y) then 1 else 0)
  }

  /** The day number of a calendar date. */
  function DayNumber(c: Civil): int
    requires Valid(c)
  {
    DaysBeforeYear(c.year) + DaysBeforeMonth(c.year, c.month) + c.day - 1
  }

  /** `new Date(y, m, 1)`: the first day of the date's month. */
  function MonthStart(c: Civil): Civil { Civil(c.year, c.month, 1) }

  /** `new Date(y, m + 1, 1)`: the first day of the following month (January of the next year after December). */
  function NextMonthStart(c: Civil): Civil
  {
    if c.month == 12 then Civil(c.year + 1, 1, 1) else Civil(c.year, c.month + 1, 1)
  }

  lemma DivStep(p: int)
    ensures (p + 1) / 4 - p / 4 == (if (p + 1) % 4 == 0 then 1 else 0)
    ensures (p + 1) / 100 - p / 100 == (if (p + 1) % 100 == 0 then 1 else 0)
    ensures (p + 1) / 400 - p / 400 == (if (p + 1) % 400 == 0 then 1 else 0)
  {
  }

  /** A year has 366 days exactly when it is a leap year. */
  lemma YearLength(y: int)
    requires 1 <= y
    ensures DaysBeforeYear(y + 1) == DaysBeforeYear(y) + (if IsLeapYear(y) then 366 else 365)
  {
    DivStep(y - 1);
  }

  /** The next month starts exactly as many days after this month's first day as this month has. */
  lemma MonthLength(c: Civil)
    requires Valid(c)
    ensures Valid(MonthStart(c)) && Valid(NextMonthStart(c))
    ensures DayNumber(NextMonthStart(c)) == DayNumber(MonthStart(c)) + DaysInMonth(c.year, c.month)
  {
    if c.month == 12 {
      YearLength(c.year);
    }
  }

  /** JavaScript `getDay()` of a day number: 0 is Sunday, 1 is Monday, ..., 6 is Saturday. */
  function WeekDay(n: int): (w: int)
    ensures 0 <= w < 7
  {
    (n + 1) % 7
  }

  /** The next day is the next weekday, and the weekday repeats every seven days. */
  lemma WeekDayStep(n: int)
    ensures WeekDay(n + 1) == (WeekDay(n) + 1) % 7
    ensures WeekDay(n + 7) == WeekDay(n)
  {
  }

  /**
   * Day numbers agree with the calendar: 0001-01-01 and 2024-01-01 were
   * Mondays, and 1970-01-01, the Unix epoch, was a Thursday.
   */
  lemma WeekDayAnchors()
    ensures WeekDay(DayNumber(Civil(1, 1, 1))) == 1
    ensures WeekDay(DayNumber(Civil(2024, 1, 1))) == 1
    ensures WeekDay(DayNumber(Civil(1970, 1, 1))) == 4
  {
    assert DayNumber(Civil(2024, 1, 1)) == 738885;
    assert DayNumber(Civil(1970, 1, 1)) == 719162;
  }

  /** date-fns `format(d, "yyyy-MM-dd")` of a valid date. */
  function FormatIsoDate(c: Civil): (s: string)
    requires Valid(c)
    ensures |s| >= 10 && s[|s| - 6] == '-' && s[|s| - 3] == '-'
    ensures AllDigits(s[..|s| - 6]) && AllDigits(s[|s| - 5..|s| - 3]) && AllDigits(s[|s| - 2..])
  {
    PadStart(NatToString(c.year), 4, '0') + "-" + TwoDigits(c.month) + "-" + TwoDigits(c.day)
  }

  /** Reads a number that must be followed by a dash; returns it with what follows the dash. */
  function ReadField(s: string): Option<(nat, string)>
  {
    match ReadNumber(s)
    case None => None
    case Some((n, rest)) => if |rest| == 0 || rest[0] != '-' then None else Some((n, rest[1..]))
  }

  /** Reads a "yyyy-MM-dd" string back into a valid date. */
  function ParseIsoDate(s: string): (r: Option<Civil>)
    ensures r.Some? ==> Valid(r.value)
  {
    match ReadField(s)
    case None => None
    case Some((y, r1)) =>
      match ReadField(r1)
      case None => None
      case Some((m, r2)) =>
        match ReadNumber(r2)
        case None => None
        case Some((d, r3)) =>
          if r3 == [] && Valid(Civil(y, m, d)) then Some(Civil(y, m, d)) else None
  }

  lemma ReadFieldPadded(n: nat, width: nat, rest: string)
    ensures ReadField(PadStart(NatToString(n), width, '0') + "-" + rest) == Some((n, rest))
  {
    var p := PadStart(NatToString(n), width, '0');
    var t := "-" + rest;
    assert p + "-" + rest == p + t;
    assert ReadNumber(p + t) == Some((n, t)) by {
      ReadPadded(n, width, t);
    }
    assert |t| > 0 && t[0] == '-' && t[1..] == rest;
  }

  /** Formatting loses nothing: the date string reads back as the date. */
  lemma ParseFormatIsoDate(c: Civil)
    requires Valid(c)
    ensures ParseIsoDate(FormatIsoDate(c)) == Some(c)
  {
    var m := TwoDigits(c.month);
    var d := TwoDigits(c.day);
    var rest := m + "-" + d;
    assert FormatIsoDate(c) == PadStart(NatToString(c.year), 4, '0') + "-" + rest;
    ReadFieldPadded(c.year, 4, rest);
    ReadFieldPadded(c.month, 2, d);
    ReadPadded(c.day, 2, []);
    assert d + [] == d;
  }
}
