/**
 * Civil calendar dates (proleptic Gregorian), the day-granular view of a
 * JavaScript `Date` that the application uses everywhere: year, month 1..12
 * and day of month. The day count since 1970-01-01 is the JavaScript time
 * value at day granularity; the weekday follows ECMAScript's `WeekDay`
 * (Sunday = 0).
 */
module CivilDate {

  datatype Date = Date(year: int, month: int, day: int)

  /** A clock reading: a civil date and the milliseconds elapsed since local midnight. */
  datatype Instant = Instant(date: Date, millisecondOfDay: int)

  /** The Gregorian leap rule. */
  predicate IsLeapYear(y: int) {
    y % 4 == 0 && (y % 100 != 0 || y % 400 == 0)
  }

  function DaysInMonth(y: int, m: int): (n: int)
    requires 1 <= m <= 12
    ensures 28 <= n <= 31
    ensures m == 2 ==> (n == 29 <==> IsLeapYear(y))
    ensures m != 2 ==> (n == 30 <==> m in {4, 6, 9, 11})
    ensures m == 2 && !IsLeapYear(y) ==> n == 28
    ensures m != 2 && m !in {4, 6, 9, 11} ==> n == 31
  {
    if m == 2 then (if IsLeapYear(y) then 29 else 28)
    else if m == 4 || m == 6 || m == 9 || m == 11 then 30
    else 31
  }

  function DaysInYear(y: int): int {
    if IsLeapYear(y) then 366 else 365
  }

  /** The date exists in the calendar. */
  predicate IsValid(d: Date) {
    1 <= d.month <= 12 && 1 <= d.day <= DaysInMonth(d.year, d.month)
  }

  /** Chronological order of civil dates: lexicographic on (year, month, day). */
  predicate Before(a: Date, b: Date) {
    a.year < b.year
    || (a.year == b.year && a.month < b.month)
    || (a.year == b.year && a.month == b.month && a.day < b.day)
  }

  /** Days in the months of year `y` that precede month `m`. */
  function DaysBeforeMonth(y: int, m: int): int
    requires 1 <= m <= 12
  {
    [0, 31, 59, 90, 120, 151, 181, 212, 243, 273, 304, 334][m - 1]
    + (if m > 2 && IsLeapYear(y) then 1 else 0)
  }

  /** Days from 0000-01-01 to the first of January of year `y` (negative before year 0). */
  function YearStart(y: int): int {
    365 * y + (y + 3) / 4 - (y + 99) / 100 + (y + 399) / 400
  }

  /** YearStart(1970): 1970-01-01 is day zero of the JavaScript time value. */
  const UnixEpochOffset: int := 719528

  /** Days since 1970-01-01. */
  function EpochDay(d: Date): int
    requires IsValid(d)
  {
    YearStart(d.year) + DaysBeforeMonth(d.year, d.month) + d.day - 1 - UnixEpochOffset
  }

  /** `Date.prototype.getDay`: 0 is Sunday; 1970-01-01 was a Thursday. */
  function Weekday(d: Date): (w: int)
    requires IsValid(d)
    ensures 0 <= w < 7
  {
    (EpochDay(d) + 4) % 7
  }

  /** The following day, as `setDate(getDate() + 1)` normalizes it. */
  function NextDay(d: Date): (r: Date)
    requires IsValid(d)
    ensures IsValid(r)
    ensures Before(d, r)
    ensures EpochDay(r) == EpochDay(d) + 1
  {
    if d.day < DaysInMonth(d.year, d.month) then
      Date(d.year, d.month, d.day + 1)
    else if d.month < 12 then
      DaysBeforeMonthStep(d.year, d.month);
      Date(d.year, d.month + 1, 1)
    else
      YearStartStep(d.year);
      Date(d.year + 1, 1, 1)
  }

  lemma EpochDayOfUnixEpoch()
    ensures EpochDay(Date(1970, 1, 1)) == 0
  {
  }

  /** Moving past a multiple of 4, 100 or 400 raises the rounded-up quotient by one. */
  lemma QuotientStep4(y: int)
    ensures (y + 4) / 4 == (y + 3) / 4 + (if y % 4 == 0 then 1 else 0)
  {
    var q, r := y / 4, y % 4;
    assert y == 4 * q + r;
    if r == 0 {
      assert (y + 3) / 4 == q;
    } else {
      assert (y + 3) / 4 == q + 1;
    }
    assert (y + 4) / 4 == q + 1;
  }

  lemma QuotientStep100(y: int)
    ensures (y + 100) / 100 == (y + 99) / 100 + (if y % 100 == 0 then 1 else 0)
  {
    var q, r := y / 100, y % 100;
    assert y == 100 * q + r;
    if r == 0 {
      assert (y + 99) / 100 == q;
    } else {
      assert (y + 99) / 100 == q + 1;
    }
    assert (y + 100) / 100 == q + 1;
  }

  lemma QuotientStep400(y: int)
    ensures (y + 400) / 400 == (y + 399) / 400 + (if y % 400 == 0 then 1 else 0)
  {
    var q, r := y / 400, y % 400;
    assert y == 400 * q + r;
    if r == 0 {
      assert (y + 399) / 400 == q;
    } else {
      assert (y + 399) / 400 == q + 1;
    }
    assert (y + 400) / 400 == q + 1;
  }

  /** The leap rule as a count: multiples of 4, less those of 100, plus those of 400. */
  lemma LeapIndicator(y: int)
    ensures (if y % 4 == 0 then 1 else 0) - (if y % 100 == 0 then 1 else 0) + (if y % 400 == 0 then 1 else 0)
      == (if IsLeapYear(y) then 1 else 0)
  {
    if y % 400 == 0 {
      var k := y / 400;
      assert y == 100 * (4 * k);
      assert y % 100 == 0;
      assert y == 4 * (100 * k);
      assert y % 4 == 0;
    } else if y % 100 == 0 {
      var k := y / 100;
      assert y == 4 * (25 * k);
      assert y % 4 == 0;
    }
  }

  lemma YearStartStep(y: int)
    ensures YearStart(y + 1) == YearStart(y) + DaysInYear(y)
  {
    QuotientStep4(y);
    QuotientStep100(y);
    QuotientStep400(y);
    LeapIndicator(y);
    var a, b, c := (y + 3) / 4, (y + 99) / 100, (y + 399) / 400;
    assert YearStart(y) == 365 * y + a - b + c;
    assert YearStart(y + 1) == 365 * (y + 1) + (y + 4) / 4 - (y + 100) / 100 + (y + 400) / 400;
  }

  lemma DaysBeforeMonthStep(y: int, m: int)
    requires 1 <= m < 12
    ensures DaysBeforeMonth(y, m + 1) == DaysBeforeMonth(y, m) + DaysInMonth(y, m)
  {
  }

  lemma DaysBeforeDecember(y: int)
    ensures DaysBeforeMonth(y, 12) + DaysInMonth(y, 12) == DaysInYear(y)
  {
  }

  lemma {:induction false} YearStartMonotone(y1: int, y2: int)
    requires y1 <= y2
    ensures YearStart(y1) + 365 * (y2 - y1) <= YearStart(y2)
    decreases y2 - y1
  {
    if y1 < y2 {
      YearStartMonotone(y1 + 1, y2);
      YearStartStep(y1);
    }
  }

  lemma {:induction false} DaysBeforeMonthMonotone(y: int, m1: int, m2: int)
    requires 1 <= m1 < m2 <= 12
    ensures DaysBeforeMonth(y, m1) + DaysInMonth(y, m1) <= DaysBeforeMonth(y, m2)
    decreases m2 - m1
  {
    DaysBeforeMonthStep(y, m1);
    if m1 + 1 < m2 {
      DaysBeforeMonthMonotone(y, m1 + 1, m2);
    }
  }

  /** A valid date of year `y` falls within that year's days. */
  lemma EpochDayWithinYear(d: Date)
    requires IsValid(d)
    ensures YearStart(d.year) <= EpochDay(d) + UnixEpochOffset < YearStart(d.year + 1)
  {
    YearStartStep(d.year);
    if d.month < 12 {
      DaysBeforeMonthMonotone(d.year, d.month, 12);
    }
    DaysBeforeDecember(d.year);
  }

  /** The day count orders valid dates chronologically. */
  lemma EpochDayOrder(a: Date, b: Date)
    requires IsValid(a) && IsValid(b)
    ensures Before(a, b) <==> EpochDay(a) < EpochDay(b)
    ensures a == b <==> EpochDay(a) == EpochDay(b)
  {
    EpochDayWithinYear(a);
    EpochDayWithinYear(b);
    if a.year < b.year {
      YearStartMonotone(a.year + 1, b.year);
    } else if b.year < a.year {
      YearStartMonotone(b.year + 1, a.year);
    } else if a.month < b.month {
      DaysBeforeMonthMonotone(a.year, a.month, b.month);
    } else if b.month < a.month {
      DaysBeforeMonthMonotone(a.year, b.month, a.month);
    }
  }

  /** Before is a strict total order on dates. */
  lemma BeforeTrichotomy(a: Date, b: Date)
    ensures !(Before(a, b) && Before(b, a))
    ensures Before(a, b) || Before(b, a) || a == b
  {
  }

  lemma ModSevenStep(e: int)
    ensures (e + 1) % 7 == (e % 7 + 1) % 7
  {
    if e % 7 == 6 {
      assert e + 1 == 7 * (e / 7 + 1);
    } else {
      assert e + 1 == 7 * (e / 7) + (e % 7 + 1);
    }
  }

  /** Consecutive days have consecutive weekdays. */
  lemma WeekdayOfNextDay(d: Date)
    requires IsValid(d)
    ensures Weekday(NextDay(d)) == (Weekday(d) + 1) % 7
  {
    var n := NextDay(d);
    assert EpochDay(n) + 4 == (EpochDay(d) + 4) + 1;
    ModSevenStep(EpochDay(d) + 4);
  }
}
