/** The observation stamp: the `Datum` and `Zeit` columns of the service's
    CSV, concatenated and read with the strptime layout `%d-%m-%Y%H:%M`, and
    the count of minutes that stands for the resulting datetime. */
module Stamps {
  import opened Python

  datatype DateTime = DateTime(year: int, month: int, day: int, hour: int, minute: int)

  predicate IsLeapYear(y: int) {
    y % 4 == 0 && (y % 100 != 0 || y % 400 == 0)
  }

  function DaysInMonth(y: int, m: int): int {
    if m == 2 then (if IsLeapYear(y) then 29 else 28)
    else if m == 4 || m == 6 || m == 9 || m == 11 then 30
    else 31
  }

  function DaysInYear(y: int): int {
    if IsLeapYear(y) then 366 else 365
  }

  /** The values Python's `datetime` accepts (years 1 to 9999). */
  predicate Valid(dt: DateTime) {
    && 1 <= dt.year <= 9999
    && 1 <= dt.month <= 12
    && 1 <= dt.day <= DaysInMonth(dt.year, dt.month)
    && 0 <= dt.hour < 24
    && 0 <= dt.minute < 60
  }

  /** Python's comparison of two datetimes in the same zone. */
  predicate Earlier(a: DateTime, b: DateTime) {
    || a.year < b.year
    || (a.year == b.year && a.month < b.month)
    || (a.year == b.year && a.month == b.month && a.day < b.day)
    || (a.year == b.year && a.month == b.month && a.day == b.day && a.hour < b.hour)
    || (a.year == b.year && a.month == b.month && a.day == b.day && a.hour == b.hour && a.minute < b.minute)
  }

  // ---------------------------------------------------------------------
  // The layout DD-MM-YYYYHH:MM

  predicate IsDigit(c: char) {
    '0' <= c <= '9'
  }

  function DigitValue(c: char): int
    requires IsDigit(c)
  {
    c as int - '0' as int
  }

  function DigitChar(n: int): char
    requires 0 <= n < 10
  {
    ('0' as int + n) as char
  }

  /** The positions of the layout that hold a digit. */
  predicate IsDigitPosition(i: int) {
    0 <= i < 15 && i != 2 && i != 5 && i != 12
  }

  predicate HasLayout(s: string) {
    && |s| == 15
    && s[2] == '-' && s[5] == '-' && s[12] == ':'
    && forall i :: 0 <= i < 15 && IsDigitPosition(i) ==> IsDigit(s[i])
  }

  /** The two-digit field starting at position i. */
  function Field2(s: string, i: int): int
    requires HasLayout(s) && IsDigitPosition(i) && IsDigitPosition(i + 1)
  {
    10 * DigitValue(s[i]) + DigitValue(s[i + 1])
  }

  /** The strptime read of a stamp: None where strptime raises ValueError. */
  function Parse(s: string): (r: Option<DateTime>)
    ensures r.Some? ==> Valid(r.value)
  {
    if !HasLayout(s) then None
    else
      var dt := DateTime(100 * Field2(s, 6) + Field2(s, 8), Field2(s, 3), Field2(s, 0), Field2(s, 10), Field2(s, 13));
      if Valid(dt) then Some(dt) else None
  }

  function Pad2(n: int): (s: string)
    requires 0 <= n < 100
  {
    [DigitChar(n / 10), DigitChar(n % 10)]
  }

  /** The stamp the service writes for dt: `strftime("%d-%m-%Y%H:%M")`. */
  function Format(dt: DateTime): (s: string)
    requires Valid(dt)
    ensures |s| == 15
  {
    Pad2(dt.day) + "-" + Pad2(dt.month) + "-" + Pad2(dt.year / 100) + Pad2(dt.year % 100)
      + Pad2(dt.hour) + ":" + Pad2(dt.minute)
  }

  /** Reading what Format writes gives back the datetime. */
  lemma ParseFormat(dt: DateTime)
    requires Valid(dt)
    ensures Parse(Format(dt)) == Some(dt)
  {
  }

  lemma Pad2Field2(s: string, i: int)
    requires HasLayout(s) && IsDigitPosition(i) && IsDigitPosition(i + 1)
    ensures Pad2(Field2(s, i)) == s[i..i + 2]
  {
  }

  /** Whatever Parse accepts is exactly the stamp Format writes for it. */
  lemma FormatParse(s: string)
    requires Parse(s).Some?
    ensures Format(Parse(s).value) == s
  {
    var dt := Parse(s).value;
    assert dt.year / 100 == Field2(s, 6) && dt.year % 100 == Field2(s, 8);
    Pad2Field2(s, 0);
    Pad2Field2(s, 3);
    Pad2Field2(s, 6);
    Pad2Field2(s, 8);
    Pad2Field2(s, 10);
    Pad2Field2(s, 13);
    assert s == s[0..2] + "-" + s[3..5] + "-" + s[6..8] + s[8..10] + s[10..12] + ":" + s[13..15];
  }

  /** Parse and Format are inverse on valid datetimes, in both directions. */
  lemma ParseIffFormat(s: string, dt: DateTime)
    ensures Parse(s) == Some(dt) <==> Valid(dt) && Format(dt) == s
  {
    if Parse(s) == Some(dt) {
      FormatParse(s);
    }
    if Valid(dt) && Format(dt) == s {
      ParseFormat(dt);
    }
  }

  // ---------------------------------------------------------------------
  // Minutes since 0001-01-01 00:00 (proleptic Gregorian, as Python counts)

  function DaysBeforeYear(y: int): int {
    var p := y - 1;
    365 * p + p / 4 - p / 100 + p / 400
  }

  function DaysBeforeMonth(y: int, m: int): int
    requires 1 <= m <= 12
  {
    [0, 31, 59, 90, 120, 151, 181, 212, 243, 273, 304, 334][m - 1]
      + (if m > 2 && IsLeapYear(y) then 1 else 0)
  }

  /** Days between 0001-01-01 and dt's date (Python's `toordinal() - 1`). */
  function DayNumber(dt: DateTime): int
    requires Valid(dt)
  {
    DaysBeforeYear(dt.year) + DaysBeforeMonth(dt.year, dt.month) + dt.day - 1
  }

  function Minutes(dt: DateTime): int
    requires Valid(dt)
  {
    DayNumber(dt) * 1440 + dt.hour * 60 + dt.minute
  }

  /** The last minute Python's `datetime` can hold (`datetime.max`, to the minute). */
  const Latest: DateTime := DateTime(9999, 12, 31, 23, 59)

  /** `dt + timedelta(minutes=m)` stays within `datetime`'s range; past it
      Python raises OverflowError. */
  predicate FitsAfter(dt: DateTime, m: int)
    requires Valid(dt)
  {
    Minutes(dt) + m <= Minutes(Latest)
  }

  lemma YearLength(y: int)
    ensures DaysBeforeYear(y + 1) == DaysBeforeYear(y) + DaysInYear(y)
  {
    LeapStep(y);
  }

  /** Going from y - 1 to y, each leap-year count grows by one exactly when
      its divisor divides y. */
  lemma LeapStep(y: int)
    ensures y / 4 == (y - 1) / 4 + (if y % 4 == 0 then 1 else 0)
    ensures y / 100 == (y - 1) / 100 + (if y % 100 == 0 then 1 else 0)
    ensures y / 400 == (y - 1) / 400 + (if y % 400 == 0 then 1 else 0)
  {
  }

  lemma {:induction false} YearsAfter(y: int, y': int)
    requires y < y'
    ensures DaysBeforeYear(y) + DaysInYear(y) <= DaysBeforeYear(y')
    decreases y' - y
  {
    YearLength(y);
    if y + 1 < y' {
      YearsAfter(y + 1, y');
    }
  }

  lemma MonthsAfter(y: int, m: int, m': int)
    requires 1 <= m < m' <= 12
    ensures DaysBeforeMonth(y, m) + DaysInMonth(y, m) <= DaysBeforeMonth(y, m')
  {
  }

  lemma DateInYear(dt: DateTime)
    requires Valid(dt)
    ensures DaysBeforeMonth(dt.year, dt.month) + dt.day <= DaysInYear(dt.year)
  {
  }

  lemma DayNumberOrder(a: DateTime, b: DateTime)
    requires Valid(a) && Valid(b)
    requires a.year < b.year
          || (a.year == b.year && a.month < b.month)
          || (a.year == b.year && a.month == b.month && a.day < b.day)
    ensures DayNumber(a) < DayNumber(b)
  {
    if a.year < b.year {
      DateInYear(a);
      YearsAfter(a.year, b.year);
    } else if a.month < b.month {
      MonthsAfter(a.year, a.month, b.month);
    }
  }

  /** The minute count orders datetimes as Python compares them, so the
      client's "one hour later" test can be made on minutes. */
  lemma MinutesOrder(a: DateTime, b: DateTime)
    requires Valid(a) && Valid(b)
    ensures Earlier(a, b) <==> Minutes(a) < Minutes(b)
  {
    if a.year == b.year && a.month == b.month && a.day == b.day {
    } else if Earlier(a, b) {
      DayNumberOrder(a, b);
    } else {
      DayNumberOrder(b, a);
    }
  }

  /** Two valid datetimes with the same minute count are the same datetime. */
  lemma MinutesInjective(a: DateTime, b: DateTime)
    requires Valid(a) && Valid(b)
    requires Minutes(a) == Minutes(b)
    ensures a == b
  {
    MinutesOrder(a, b);
    MinutesOrder(b, a);
  }
}
