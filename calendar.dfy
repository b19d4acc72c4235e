/**
 * The date-picker component: which days may be picked (between a minimum,
 * today by default, and an optional maximum, compared as `YYYY-MM-DD`
 * strings), the six-week grid of the shown month with Monday in the first
 * column, the string emitted when a day is picked, and month navigation.
 */
module Calendar {
  import opened Wrappers
  import opened CivilDate
  import opened JsText
  import opened DateString
  import opened DateValidator

  /** `minDate || today`: an absent or empty minimum means today's date string. */
  function EffectiveMinDate(minDate: Option<string>, today: Date): string
    requires IsValid(today)
  {
    if minDate.Some? && minDate.value != "" then minDate.value else FormatYmd(today)
  }

  /**
   * `isDateSelectable`: the date's string may not sort below the effective
   * minimum, nor above a given non-empty maximum.
   */
  predicate IsDateSelectable(date: Date, minDate: Option<string>, maxDate: Option<string>, today: Date)
    requires IsValid(date) && IsValid(today)
  {
    var dateStr := FormatYmd(date);
    var effectiveMinDate := EffectiveMinDate(minDate, today);
    if effectiveMinDate != "" && LexLess(dateStr, effectiveMinDate) then false
    else if maxDate.Some? && maxDate.value != "" && LexLess(maxDate.value, dateStr) then false
    else true
  }

  /** A bound given as a date, written as the component expects it. */
  function FormatBound(bound: Option<Date>): Option<string>
    requires bound.Some? ==> IsValid(bound.value)
  {
    if bound.Some? then Some(FormatYmd(bound.value)) else None
  }

  /** A valid date with a four-digit year. */
  predicate FourDigitYear(d: Date) {
    IsValid(d) && 1000 <= d.year <= 9999
  }

  /**
   * With four-digit years the string comparisons are chronological: a day is
   * selectable exactly when it is not before the minimum (today when none is
   * given) and not after the maximum, if there is one.
   */
  lemma SelectableChronological(date: Date, minDay: Option<Date>, maxDay: Option<Date>, today: Date)
    requires FourDigitYear(date) && FourDigitYear(today)
    requires minDay.Some? ==> FourDigitYear(minDay.value)
    requires maxDay.Some? ==> FourDigitYear(maxDay.value)
    ensures IsDateSelectable(date, FormatBound(minDay), FormatBound(maxDay), today) <==>
      && !Before(date, if minDay.Some? then minDay.value else today)
      && (maxDay.Some? ==> !Before(maxDay.value, date))
  {
    var lo := if minDay.Some? then minDay.value else today;
    FormatYmdShape(lo);
    FormatYmdOrder(date, lo);
    assert EffectiveMinDate(FormatBound(minDay), today) == FormatYmd(lo);
    if maxDay.Some? {
      FormatYmdShape(maxDay.value);
      FormatYmdOrder(maxDay.value, date);
    }
  }

  /** With no minimum given, every selectable day is one the due-date validator accepts. */
  lemma SelectedDatePassesValidation(date: Date, maxDate: Option<string>, today: Date)
    requires FourDigitYear(date) && FourDigitYear(today)
    requires IsDateSelectable(date, None, maxDate, today)
    ensures ValidateDate(FormatYmd(date), today) == Accepted
  {
    FormatYmdShape(today);
    FormatYmdOrder(date, today);
    ValidateFormatted(date, today);
  }

  /** Months counted from year zero: `year * 12 + getMonth()`. */
  function MonthIndex(d: Date): int {
    d.year * 12 + d.month - 1
  }

  /**
   * `new Date(year, monthIndex, 1)` for a zero-based month index that may
   * fall outside 0..11: the first of the month `monthIndex` months after
   * January of `year`.
   */
  function MonthStart(year: int, monthIndex: int): (r: Date)
    ensures IsValid(r) && r.day == 1
    ensures MonthIndex(r) == year * 12 + monthIndex
  {
    Date(year + monthIndex / 12, monthIndex % 12 + 1, 1)
  }

  /** One month back: January wraps to December of the year before. */
  lemma PreviousMonthWraps(d: Date)
    requires IsValid(d)
    ensures MonthStart(d.year, d.month - 2) ==
      if d.month == 1 then Date(d.year - 1, 12, 1) else Date(d.year, d.month - 1, 1)
  {
    var r := MonthStart(d.year, d.month - 2);
    assert r.year * 12 + r.month == d.year * 12 + d.month - 1;
  }

  /** One month forward: December wraps to January of the year after. */
  lemma NextMonthWraps(d: Date)
    requires IsValid(d)
    ensures MonthStart(d.year, d.month) ==
      if d.month == 12 then Date(d.year + 1, 1, 1) else Date(d.year, d.month + 1, 1)
  {
    var r := MonthStart(d.year, d.month);
    assert r.year * 12 + r.month == d.year * 12 + d.month + 1;
  }

  /** Forward then back returns to the first of the same month. */
  lemma NavigationRoundTrip(d: Date)
    requires IsValid(d)
    ensures var n := MonthStart(d.year, d.month); MonthStart(n.year, n.month - 2) == Date(d.year, d.month, 1)
  {
    NextMonthWraps(d);
    PreviousMonthWraps(MonthStart(d.year, d.month));
  }

  /** `MakeFullYear`: the `Date` constructor reads a year 0..99 as 1900..1999. */
  function MakeFullYear(year: int): int {
    if 0 <= year <= 99 then 1900 + year else year
  }

  /** `new Date(year, monthIndex, 1)` as JavaScript evaluates it, two-digit years included. */
  function JsMonthStart(year: int, monthIndex: int): (r: Date)
    ensures IsValid(r) && MonthIndex(r) == MakeFullYear(year) * 12 + monthIndex
  {
    MonthStart(MakeFullYear(year), monthIndex)
  }

  /**
   * As written, the previous-month button steps from January 100 to
   * December 99 and then, since 99 is read as 1999, to November 1999.
   */
  lemma JsPreviousMonthLeavesYear99()
    ensures JsMonthStart(100, 1 - 2) == Date(99, 12, 1)
    ensures JsMonthStart(99, 12 - 2) == Date(1999, 11, 1)
    ensures MonthIndex(Date(1999, 11, 1)) != MonthIndex(Date(99, 12, 1)) - 1
  {
    assert MonthIndex(JsMonthStart(100, -1)) == 100 * 12 - 1;
    assert MonthIndex(JsMonthStart(99, 10)) == 1999 * 12 + 10;
  }

  /** `(firstDay.getDay() + 6) % 7`: the column of the first of the month, Monday being column 0. */
  function LeadingBlanks(year: int, month: int): (n: int)
    requires 1 <= month <= 12
    ensures 0 <= n < 7
  {
    (Weekday(Date(year, month, 1)) + 6) % 7
  }

  /** The 42 cells of the grid: blanks, then the days of the month in order, then blanks. */
  function CalendarGrid(year: int, month: int): (g: seq<Option<Date>>)
    requires 1 <= month <= 12
    ensures |g| == 42
  {
    var lead := LeadingBlanks(year, month);
    var n := DaysInMonth(year, month);
    seq(42, i requires 0 <= i < 42 => if lead <= i < lead + n then Some(Date(year, month, i - lead + 1)) else None)
  }

  /**
   * `startDate.setDate(startDate.getDate() - dayOfWeek)` on the first of a
   * month, for up to six days back: the last days of the month before.
   */
  function FirstMinusDays(first: Date, k: int): (r: Date)
    requires IsValid(first) && first.day == 1 && 0 <= k < 28
    ensures IsValid(r) && EpochDay(r) + k == EpochDay(first)
  {
    if k == 0 then first
    else
      var p := MonthStart(first.year, first.month - 2);
      PreviousMonthWraps(first);
      if first.month == 1 then
        YearStartStep(p.year);
        DaysBeforeDecember(p.year);
        Date(p.year, p.month, DaysInMonth(p.year, p.month) + 1 - k)
      else
        DaysBeforeMonthStep(p.year, p.month);
        Date(p.year, p.month, DaysInMonth(p.year, p.month) + 1 - k)
  }

  /** The date `current` holds when cell `i` is produced. */
  function GridDate(year: int, month: int, i: int): Date
    requires 1 <= month <= 12 && 0 <= i <= 42
  {
    var lead := LeadingBlanks(year, month);
    var n := DaysInMonth(year, month);
    if i < lead then
      var p := MonthStart(year, month - 2);
      Date(p.year, p.month, DaysInMonth(p.year, p.month) - lead + 1 + i)
    else if i < lead + n then Date(year, month, i - lead + 1)
    else
      var q := MonthStart(year, month);
      Date(q.year, q.month, i - lead - n + 1)
  }

  /** Each cell's date exists, lies in the shown month exactly for the month's cells, and the next cell holds the next day. */
  lemma GridDateStep(year: int, month: int, i: int)
    requires 1 <= month <= 12 && 0 <= i < 42
    ensures IsValid(GridDate(year, month, i))
    ensures (GridDate(year, month, i).month == month) <==> CalendarGrid(year, month)[i].Some?
    ensures CalendarGrid(year, month)[i].Some? ==> CalendarGrid(year, month)[i].value == GridDate(year, month, i)
    ensures NextDay(GridDate(year, month, i)) == GridDate(year, month, i + 1)
  {
    var lead := LeadingBlanks(year, month);
    var n := DaysInMonth(year, month);
    var d := Date(year, month, 1);
    PreviousMonthWraps(d);
    NextMonthWraps(d);
  }

  /** The grid starts on the Monday on or before the first of the month. */
  lemma GridStart(year: int, month: int)
    requires 1 <= month <= 12
    ensures GridDate(year, month, 0) == FirstMinusDays(Date(year, month, 1), LeadingBlanks(year, month))
  {
    PreviousMonthWraps(Date(year, month, 1));
  }

  /** A prefix one longer is the prefix followed by the next element. */
  lemma PrefixStep<T>(s: seq<T>, i: int)
    requires 0 <= i < |s|
    ensures s[..i + 1] == s[..i] + [s[i]]
  {
  }

  /**
   * `generateCalendarDays`: walks 42 consecutive days from the grid's start,
   * keeping the days of the shown month and a blank for every other day.
   */
  method GenerateCalendarDays(currentMonth: Date) returns (days: seq<Option<Date>>)
    requires IsValid(currentMonth)
    ensures days == CalendarGrid(currentMonth.year, currentMonth.month)
  {
    var year, month := currentMonth.year, currentMonth.month;
    var firstDay := Date(year, month, 1);
    var dayOfWeek := (Weekday(firstDay) + 6) % 7;
    assert dayOfWeek == LeadingBlanks(year, month);
    var startDate := FirstMinusDays(firstDay, dayOfWeek);
    GridStart(year, month);
    ghost var grid := CalendarGrid(year, month);
    days := [];
    var current := startDate;
    var i := 0;
    while i < 42
      invariant 0 <= i <= 42
      invariant current == GridDate(year, month, i)
      invariant days == grid[..i]
    {
      GridDateStep(year, month, i);
      if current.month == month {
        days := days + [Some(current)];
      } else {
        days := days + [None];
      }
      PrefixStep(grid, i);
      current := NextDay(current);
      i := i + 1;
    }
    assert grid[..42] == grid;
  }

  /** Blanks before the first of the month, its days in order, blanks after: the whole grid. */
  lemma GridLayout(year: int, month: int)
    requires 1 <= month <= 12
    ensures var g, lead, n := CalendarGrid(year, month), LeadingBlanks(year, month), DaysInMonth(year, month);
      && lead + n <= 42
      && (forall i :: 0 <= i < lead ==> g[i] == None)
      && (forall day :: 1 <= day <= n ==> g[lead + day - 1] == Some(Date(year, month, day)))
      && (forall i :: lead + n <= i < 42 ==> g[i] == None)
  {
  }

  /** Every day of the shown month appears in exactly one cell. */
  lemma GridDayExactlyOnce(year: int, month: int, d: Date)
    requires 1 <= month <= 12 && IsValid(d) && d.year == year && d.month == month
    ensures var g := CalendarGrid(year, month);
      && (exists i :: 0 <= i < 42 && g[i] == Some(d))
      && (forall i, j :: 0 <= i < 42 && 0 <= j < 42 && g[i] == Some(d) && g[j] == Some(d) ==> i == j)
  {
    var g, lead := CalendarGrid(year, month), LeadingBlanks(year, month);
    assert g[lead + d.day - 1] == Some(d);
  }

  /** Filled cells hold existing days of the shown month, and consecutive filled cells consecutive days. */
  lemma GridCellsConsecutive(year: int, month: int)
    requires 1 <= month <= 12
    ensures var g := CalendarGrid(year, month);
      && (forall i :: 0 <= i < 42 && g[i].Some? ==>
            IsValid(g[i].value) && g[i].value.year == year && g[i].value.month == month)
      && (forall i :: 0 <= i < 41 && g[i].Some? && g[i + 1].Some? ==> g[i + 1].value == NextDay(g[i].value))
  {
  }

  lemma ModSevenShift(a: int, b: int)
    ensures (a % 7 + b) % 7 == (a + b) % 7
  {
    var q := a / 7;
    assert a == 7 * q + a % 7;
    assert a % 7 + b == (a + b) - 7 * q;
  }

  lemma ColumnShift(e: int, k: int)
    ensures ((e + k) % 7 + 6) % 7 == ((e % 7 + 6) % 7 + k) % 7
  {
    ModSevenShift(e + k, 6);
    ModSevenShift(e + 6, k);
    ModSevenShift(e, 6);
  }

  /** Day `day` of the month sits `day - 1` columns after the first, wrapping at Sunday. */
  lemma DayColumn(year: int, month: int, day: int)
    requires IsValid(Date(year, month, day))
    ensures (Weekday(Date(year, month, day)) + 6) % 7 == (LeadingBlanks(year, month) + day - 1) % 7
  {
    var e := EpochDay(Date(year, month, 1)) + 4;
    var k := day - 1;
    assert EpochDay(Date(year, month, day)) + 4 == e + k;
    assert Weekday(Date(year, month, day)) == (e + k) % 7;
    assert LeadingBlanks(year, month) == (e % 7 + 6) % 7;
    ColumnShift(e, k);
  }

  /** Each filled cell sits in its weekday's column, Monday first. */
  lemma GridColumnIsWeekday(year: int, month: int)
    requires 1 <= month <= 12
    ensures var g := CalendarGrid(year, month);
      forall i :: 0 <= i < 42 && g[i].Some? ==> (Weekday(g[i].value) + 6) % 7 == i % 7
  {
    var g, lead := CalendarGrid(year, month), LeadingBlanks(year, month);
    forall i | 0 <= i < 42 && g[i].Some?
      ensures (Weekday(g[i].value) + 6) % 7 == i % 7
    {
      var day := i - lead + 1;
      assert 1 <= day <= DaysInMonth(year, month) && g[i].value == Date(year, month, day);
      DayColumn(year, month, day);
      assert lead + day - 1 == i;
    }
  }

  /** The date picker's state: the dropdown and the month shown. */
  class CalendarState {
    const today: Date
    const minDate: Option<string>
    const maxDate: Option<string>
    const autoClose: bool
    const disabled: bool
    var isOpen: bool
    var currentMonth: Date

    ghost predicate Valid()
      reads this
    {
      IsValid(today) && IsValid(currentMonth) && currentMonth.day == 1
    }

    /** Mounted closed on the first of the current month; `now` is the clock's date at mount. */
    constructor (now: Date, minDate: Option<string>, maxDate: Option<string>, autoClose: bool, disabled: bool)
      requires IsValid(now)
      ensures Valid() && !isOpen && currentMonth == Date(now.year, now.month, 1)
      ensures this.today == now && this.minDate == minDate && this.maxDate == maxDate
      ensures this.autoClose == autoClose && this.disabled == disabled
    {
      today := now;
      this.minDate := minDate;
      this.maxDate := maxDate;
      this.autoClose := autoClose;
      this.disabled := disabled;
      isOpen := false;
      currentMonth := MonthStart(now.year, now.month - 1);
    }

    /** The input button: opens or closes the dropdown unless disabled. */
    method ToggleOpen()
      requires Valid()
      modifies this`isOpen
      ensures Valid()
      ensures isOpen == if disabled then old(isOpen) else !old(isOpen)
    {
      if !disabled {
        isOpen := !isOpen;
      }
    }

    /**
     * `handleDateSelect`: a day outside the bounds is ignored; otherwise its
     * `YYYY-MM-DD` string is passed to `onChange` (the result) and the
     * dropdown closes when `autoClose` is set.
     */
    method HandleDateSelect(date: Date) returns (emitted: Option<string>)
      requires Valid() && IsValid(date)
      modifies this`isOpen
      ensures Valid()
      ensures !IsDateSelectable(date, minDate, maxDate, today) ==> emitted == None && isOpen == old(isOpen)
      ensures IsDateSelectable(date, minDate, maxDate, today) ==>
        emitted == Some(FormatYmd(date)) && isOpen == (old(isOpen) && !autoClose)
    {
      if !IsDateSelectable(date, minDate, maxDate, today) {
        return None;
      }
      var dateStr := FormatYmd(date);
      emitted := Some(dateStr);
      if autoClose {
        isOpen := false;
      }
    }

    /** `goToPreviousMonth`: the first of the month before. */
    method GoToPreviousMonth()
      requires Valid()
      modifies this`currentMonth
      ensures Valid() && MonthIndex(currentMonth) == MonthIndex(old(currentMonth)) - 1
      ensures var m := old(currentMonth);
        currentMonth == if m.month == 1 then Date(m.year - 1, 12, 1) else Date(m.year, m.month - 1, 1)
    {
      PreviousMonthWraps(currentMonth);
      currentMonth := MonthStart(currentMonth.year, currentMonth.month - 1 - 1);
    }

    /** `goToNextMonth`: the first of the month after. */
    method GoToNextMonth()
      requires Valid()
      modifies this`currentMonth
      ensures Valid() && MonthIndex(currentMonth) == MonthIndex(old(currentMonth)) + 1
      ensures var m := old(currentMonth);
        currentMonth == if m.month == 12 then Date(m.year + 1, 1, 1) else Date(m.year, m.month + 1, 1)
    {
      NextMonthWraps(currentMonth);
      currentMonth := MonthStart(currentMonth.year, currentMonth.month - 1 + 1);
    }

    /** `goToToday`: the first of the clock's current month. */
    method GoToToday(now: Date)
      requires Valid() && IsValid(now)
      modifies this`currentMonth
      ensures Valid() && currentMonth == Date(now.year, now.month, 1)
    {
      currentMonth := MonthStart(now.year, now.month - 1);
    }

    /** The cells rendered for the shown month. */
    method CalendarDays() returns (days: seq<Option<Date>>)
      requires Valid()
      ensures days == CalendarGrid(currentMonth.year, currentMonth.month)
    {
      days := GenerateCalendarDays(currentMonth);
    }
  }
}
