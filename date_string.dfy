/**
 * The `YYYY-MM-DD` strings the application stores and exchanges: the
 * zero-padded formatting the calendar emits, the shape `^\d{4}-\d{2}-\d{2}$`
 * (the `full-date` production of section 5.6 of RFC 3339) and the
 * year/month/day fields read back from a string of that shape.
 */
module DateString {
  import opened CivilDate
  import opened JsText

  /** `String(year)` for an integer year. */
  function YearString(y: int): string {
    if y < 0 then "-" + Decimal(-y) else Decimal(y)
  }

  /** `${year}-${month padded}-${day padded}`, as the calendar formats a date. */
  function FormatYmd(d: Date): string
    requires IsValid(d)
  {
    YearString(d.year) + "-" + PadStart2(d.month) + "-" + PadStart2(d.day)
  }

  /** Matches `^\d{4}-\d{2}-\d{2}$`. */
  predicate IsFullDateShape(s: string) {
    |s| == 10
    && IsDigit(s[0]) && IsDigit(s[1]) && IsDigit(s[2]) && IsDigit(s[3])
    && s[4] == '-'
    && IsDigit(s[5]) && IsDigit(s[6])
    && s[7] == '-'
    && IsDigit(s[8]) && IsDigit(s[9])
  }

  /** The `parseInt` of the three hyphen-separated fields of a well-shaped string. */
  function ParseFullDate(s: string): (d: Date)
    requires IsFullDateShape(s)
    ensures 0 <= d.year <= 9999 && 0 <= d.month <= 99 && 0 <= d.day <= 99
  {
    Date(DigitsValue(s[0..4]), DigitsValue(s[5..7]), DigitsValue(s[8..10]))
  }

  /** A well-shaped string has no whitespace at its ends, so `trim` leaves it non-empty. */
  lemma ShapedIsNotBlank(s: string)
    requires IsFullDateShape(s)
    ensures Trim(s) == s && !IsBlank(s)
  {
    TrimOfUnpadded(s);
    assert !IsJsWhitespace(s[0]);
  }

  /** For a four-digit year the formatted date is four, two and two digits between hyphens. */
  lemma FormatYmdFixed(d: Date)
    requires IsValid(d) && 1000 <= d.year <= 9999
    ensures FormatYmd(d) == Fixed(d.year, 4) + "-" + Fixed(d.month, 2) + "-" + Fixed(d.day, 2)
  {
    Pow10Small();
    DecimalIsFixed(d.year, 4);
    PadStart2IsFixed(d.month);
    PadStart2IsFixed(d.day);
  }

  /** The formatted date has the `YYYY-MM-DD` shape exactly when the year has four digits. */
  lemma FormatYmdShape(d: Date)
    requires IsValid(d)
    ensures IsFullDateShape(FormatYmd(d)) <==> 1000 <= d.year <= 9999
  {
    PadStart2IsFixed(d.month);
    PadStart2IsFixed(d.day);
    Pow10Small();
    var s := FormatYmd(d);
    var tail := "-" + PadStart2(d.month) + "-" + PadStart2(d.day);
    assert s == YearString(d.year) + tail && |tail| == 6;
    if d.year < 0 {
      assert s[0] == '-';
    } else if d.year < 10 {
      assert |Decimal(d.year)| == 1;
    } else if d.year < 100 {
      DecimalIsFixed(d.year, 2);
    } else if d.year < 1000 {
      DecimalIsFixed(d.year, 3);
    } else if d.year <= 9999 {
      FormatYmdFixed(d);
    } else {
      DecimalLengthAbove(d.year, 4);
    }
  }

  /** Reading back a formatted four-digit-year date gives the date: the format round-trips. */
  lemma FormatYmdRoundTrip(d: Date)
    requires IsValid(d) && 1000 <= d.year <= 9999
    ensures IsFullDateShape(FormatYmd(d))
    ensures ParseFullDate(FormatYmd(d)) == d
  {
    FormatYmdShape(d);
    FormatYmdFixed(d);
    var s := FormatYmd(d);
    assert s[0..4] == Fixed(d.year, 4);
    assert s[5..7] == Fixed(d.month, 2);
    assert s[8..10] == Fixed(d.day, 2);
    Pow10Small();
    DigitsValueOfFixed(d.year, 4);
    DigitsValueOfFixed(d.month, 2);
    DigitsValueOfFixed(d.day, 2);
  }

  /**
   * For four-digit years, JavaScript's string order on formatted dates is the
   * chronological order, and equal strings are equal dates.
   */
  lemma FormatYmdOrder(a: Date, b: Date)
    requires IsValid(a) && 1000 <= a.year <= 9999
    requires IsValid(b) && 1000 <= b.year <= 9999
    ensures LexLess(FormatYmd(a), FormatYmd(b)) <==> Before(a, b)
    ensures FormatYmd(a) == FormatYmd(b) <==> a == b
  {
    FormatYmdFixed(a);
    FormatYmdFixed(b);
    Pow10Small();
    FixedOrder(a.year, b.year, 4);
    FixedOrder(a.month, b.month, 2);
    FixedOrder(a.day, b.day, 2);
    var ya, ma, da := Fixed(a.year, 4), Fixed(a.month, 2), Fixed(a.day, 2);
    var yb, mb, db := Fixed(b.year, 4), Fixed(b.month, 2), Fixed(b.day, 2);
    DashJoinOrder(ya, ma, yb, mb);
    DashJoinOrder(ya + "-" + ma, da, yb + "-" + mb, db);
  }
}
