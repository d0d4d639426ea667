/** Local calendar dates and times. A JavaScript `Date` is read here only
    through its local decomposition (`getFullYear`, `getMonth() + 1`,
    `getDate` and the time of day), which is what the screens use; the
    time zone and daylight-saving machinery stay outside the model. */
module Calendar {
  import opened Optional
  import opened Text

  /** A local calendar day; `month` runs from 1 to 12. */
  datatype Date = Date(year: int, month: int, day: int)

  /** A local date and the seconds elapsed since its midnight. */
  datatype DateTime = DateTime(date: Date, seconds: int)

  const SecondsPerDay: int := 86400

  predicate IsLeapYear(y: int) {
    y % 4 == 0 && (y % 100 != 0 || y % 400 == 0)
  }

  function DaysInYear(y: int): int {
    if IsLeapYear(y) then 366 else 365
  }

  function DaysInMonth(y: int, m: int): int
    requires 1 <= m <= 12
  {
    if m == 2 then (if IsLeapYear(y) then 29 else 28)
    else if m == 4 || m == 6 || m == 9 || m == 11 then 30
    else 31
  }

  /** A day of the proleptic Gregorian calendar from year 0 on. */
  predicate ValidDate(d: Date) {
    && d.year >= 0
    && 1 <= d.month <= 12
    && 1 <= d.day <= DaysInMonth(d.year, d.month)
  }

  predicate ValidDateTime(t: DateTime) {
    ValidDate(t.date) && 0 <= t.seconds < SecondsPerDay
  }

  /** Days in the years before `y`, counted from year 0. */
  function DaysBeforeYear(y: int): int {
    365 * y + (y + 3) / 4 - (y + 99) / 100 + (y + 399) / 400
  }

  /** Days in the months of year `y` before month `m`. */
  function DaysBeforeMonth(y: int, m: int): int
    requires 1 <= m <= 12
  {
    var common :=
      if m == 1 then 0 else if m == 2 then 31 else if m == 3 then 59
      else if m == 4 then 90 else if m == 5 then 120 else if m == 6 then 151
      else if m == 7 then 181 else if m == 8 then 212 else if m == 9 then 243
      else if m == 10 then 273 else if m == 11 then 304 else 334;
    if m > 2 && IsLeapYear(y) then common + 1 else common
  }

  /** Consecutive numbering of days: the day after `d` has number
      `DayNumber(d) + 1`. This is the arithmetic `Date.setDate` performs when
      it moves a date by a number of days. */
  function DayNumber(d: Date): int
    requires ValidDate(d)
  {
    DaysBeforeYear(d.year) + DaysBeforeMonth(d.year, d.month) + d.day - 1
  }

  /** A point on the local time line, in seconds. */
  function Instant(t: DateTime): int
    requires ValidDateTime(t)
  {
    DayNumber(t.date) * SecondsPerDay + t.seconds
  }

  /** Calendar order: earlier year, else earlier month, else earlier day. */
  predicate Before(a: Date, b: Date) {
    || a.year < b.year
    || (a.year == b.year && a.month < b.month)
    || (a.year == b.year && a.month == b.month && a.day < b.day)
  }

  lemma Step4(y: int)
    ensures (y + 4) / 4 - (y + 3) / 4 == (if y % 4 == 0 then 1 else 0)
  {
    var q, r := y / 4, y % 4;
    assert y == 4 * q + r;
    assert (y + 4) / 4 == q + 1;
    if r != 0 {
      assert y + 3 == 4 * (q + 1) + (r - 1);
    }
  }

  lemma Step100(y: int)
    ensures (y + 100) / 100 - (y + 99) / 100 == (if y % 100 == 0 then 1 else 0)
  {
    var q, r := y / 100, y % 100;
    assert y == 100 * q + r;
    assert (y + 100) / 100 == q + 1;
    if r != 0 {
      assert y + 99 == 100 * (q + 1) + (r - 1);
    }
  }

  lemma Step400(y: int)
    ensures (y + 400) / 400 - (y + 399) / 400 == (if y % 400 == 0 then 1 else 0)
  {
    var q, r := y / 400, y % 400;
    assert y == 400 * q + r;
    assert (y + 400) / 400 == q + 1;
    if r != 0 {
      assert y + 399 == 400 * (q + 1) + (r - 1);
    }
  }

  lemma CenturyIsLeapCandidate(y: int)
    ensures y % 100 == 0 ==> y % 4 == 0
    ensures y % 400 == 0 ==> y % 100 == 0
  {
    if y % 100 == 0 {
      var q := y / 100;
      assert y == 4 * (25 * q);
    }
    if y % 400 == 0 {
      var q := y / 400;
      assert y == 100 * (4 * q);
    }
  }

  /** Consecutive years are as far apart as the first one is long. */
  lemma YearStep(y: int)
    ensures DaysBeforeYear(y + 1) == DaysBeforeYear(y) + DaysInYear(y)
  {
    Step4(y);
    Step100(y);
    Step400(y);
    CenturyIsLeapCandidate(y);
    var a, b, c := (y + 4) / 4 - (y + 3) / 4, (y + 100) / 100 - (y + 99) / 100, (y + 400) / 400 - (y + 399) / 400;
    assert DaysInYear(y) == 365 + a - b + c;
    assert DaysBeforeYear(y + 1) - DaysBeforeYear(y) == 365 + a - b + c;
  }

  lemma {:induction false} DaysBeforeYearMonotone(y: int, z: int)
    requires y < z
    ensures DaysBeforeYear(y) + DaysInYear(y) <= DaysBeforeYear(z)
    decreases z - y
  {
    YearStep(y);
    if y + 1 < z {
      DaysBeforeYearMonotone(y + 1, z);
    }
  }

  lemma DayOfYearBound(d: Date)
    requires ValidDate(d)
    ensures DaysBeforeMonth(d.year, d.month) + d.day <= DaysInYear(d.year)
  {
  }

  lemma MonthBound(y: int, m: int, n: int)
    requires 1 <= m < n <= 12
    ensures DaysBeforeMonth(y, m) + DaysInMonth(y, m) <= DaysBeforeMonth(y, n)
  {
  }

  /** Day numbers follow the calendar order. */
  lemma DayNumberMonotone(a: Date, b: Date)
    requires ValidDate(a) && ValidDate(b)
    requires Before(a, b)
    ensures DayNumber(a) < DayNumber(b)
  {
    if a.year < b.year {
      DayOfYearBound(a);
      DaysBeforeYearMonotone(a.year, b.year);
    } else if a.month < b.month {
      MonthBound(a.year, a.month, b.month);
    }
  }

  /** Distinct days have distinct numbers, ordered as the days are. */
  lemma DayNumberInjective(a: Date, b: Date)
    requires ValidDate(a) && ValidDate(b)
    ensures DayNumber(a) == DayNumber(b) <==> a == b
    ensures Before(a, b) <==> DayNumber(a) < DayNumber(b)
  {
    if a != b {
      if Before(a, b) {
        DayNumberMonotone(a, b);
      } else {
        DayNumberMonotone(b, a);
      }
    }
  }

  /** An instant lies within its own day: instants of different days are
      ordered as their days are. */
  lemma InstantWithinDay(a: DateTime, b: DateTime)
    requires ValidDateTime(a) && ValidDateTime(b)
    ensures DayNumber(a.date) < DayNumber(b.date) ==> Instant(a) < Instant(b)
    ensures Instant(a) <= Instant(b) ==> DayNumber(a.date) <= DayNumber(b.date)
  {
  }

  /** The local `YYYY-MM-DD` key the screens build with
      `getFullYear() + '-' + String(getMonth() + 1).padStart(2, '0') + '-' + ...`. */
  function FormatYMD(d: Date): string
    requires ValidDate(d)
  {
    NatToString(d.year) + "-" + PadZeros(NatToString(d.month), 2) + "-" + PadZeros(NatToString(d.day), 2)
  }

  /** Reads `YYYY-MM-DD` as `date.split('-').map(Number)` does for the text a
      date input produces: three runs of digits separated by '-'. Anything
      else gives `None`. */
  function ParseYMD(s: string): Option<Date> {
    var parts := Split(s, '-');
    if |parts| >= 3 && IsDigits(parts[0]) && IsDigits(parts[1]) && IsDigits(parts[2])
       && parts[0] != [] && parts[1] != [] && parts[2] != []
    then Some(Date(ParseDigits(parts[0]), ParseDigits(parts[1]), ParseDigits(parts[2])))
    else None
  }

  /** Reading a formatted key gives the day back. */
  lemma ParseFormat(d: Date)
    requires ValidDate(d)
    ensures ParseYMD(FormatYMD(d)) == Some(d)
  {
    var a := NatToString(d.year);
    var b := PadZeros(NatToString(d.month), 2);
    var c := PadZeros(NatToString(d.day), 2);
    assert '-' !in a && '-' !in b && '-' !in c by {
      assert !IsDigit('-');
    }
    assert FormatYMD(d) == a + ['-'] + (b + ['-'] + c);
    SplitAtSeparator(a, b + ['-'] + c, '-');
    SplitAtSeparator(b, c, '-');
    SplitNoSeparator(c, '-');
  }

  /** Two days have the same key exactly when they are the same day. */
  lemma FormatInjective(a: Date, b: Date)
    requires ValidDate(a) && ValidDate(b)
    ensures FormatYMD(a) == FormatYMD(b) <==> a == b
  {
    ParseFormat(a);
    ParseFormat(b);
  }
}
