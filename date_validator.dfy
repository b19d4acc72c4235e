/**
 * The due-date validator of the TODO page (`validateDate`): a blank string
 * means "no due date"; otherwise the string must have the `YYYY-MM-DD`
 * shape, name a date that exists, and not lie before today at day
 * granularity. Each failure has its own fixed message.
 */
module DateValidator {
  import opened CivilDate
  import opened JsText
  import opened DateString

  datatype ValidationResult = ValidationResult(isValid: bool, error: string)

  const FormatError: string := "YYYY-MM-DD形式で入力してください"
  const NonexistentError: string := "存在しない日付です"
  const PastError: string := "過去の日付は設定できません"

  const Accepted: ValidationResult := ValidationResult(true, "")

  function Rejected(error: string): ValidationResult {
    ValidationResult(false, error)
  }

  /**
   * `validateDate(dateString)` with the clock's current day passed as `today`.
   * The calendar check is the page's year/month/day round-trip through a
   * JavaScript `Date`: it succeeds exactly for dates that exist, since an
   * out-of-range month or day either yields an invalid `Date` or one that the
   * calendar has moved to another day. The past check compares the two days'
   * time values, that is, their day counts.
   */
  function ValidateDate(dateString: string, today: Date): (r: ValidationResult)
    requires IsValid(today)
    ensures r.isValid <==> r.error == ""
    ensures r.error == "" || r.error == FormatError || r.error == NonexistentError || r.error == PastError
  {
    if Trim(dateString) == "" then Accepted
    else if !IsFullDateShape(dateString) then Rejected(FormatError)
    else
      var date := ParseFullDate(dateString);
      if !IsValid(date) then Rejected(NonexistentError)
      else if EpochDay(date) < EpochDay(today) then Rejected(PastError)
      else Accepted
  }

  /** A blank (empty or whitespace-only) string is accepted with no error. */
  lemma ValidateBlank(dateString: string, today: Date)
    requires IsValid(today) && IsBlank(dateString)
    ensures ValidateDate(dateString, today) == Accepted
  {
    TrimEmptyIffBlank(dateString);
  }

  /** A non-blank string without the `YYYY-MM-DD` shape is rejected with the format message. */
  lemma ValidateMalformed(dateString: string, today: Date)
    requires IsValid(today) && !IsBlank(dateString) && !IsFullDateShape(dateString)
    ensures ValidateDate(dateString, today) == Rejected(FormatError)
  {
    TrimEmptyIffBlank(dateString);
  }

  /**
   * A well-shaped string naming a month outside 1..12, a day 0, or a day
   * beyond the month's length (so also 29 February of a common year) is
   * rejected as a date that does not exist.
   */
  lemma ValidateNonexistent(dateString: string, today: Date)
    requires IsValid(today) && IsFullDateShape(dateString)
    requires var d := ParseFullDate(dateString);
      d.month == 0 || d.month > 12 || d.day == 0 || (1 <= d.month <= 12 && d.day > DaysInMonth(d.year, d.month))
    ensures ValidateDate(dateString, today) == Rejected(NonexistentError)
  {
    ShapedIsNotBlank(dateString);
  }

  /** 29 February is rejected exactly in common years. */
  lemma ValidateLeapDay(dateString: string, today: Date)
    requires IsValid(today) && IsFullDateShape(dateString)
    requires var d := ParseFullDate(dateString); d.month == 2 && d.day == 29
    requires !Before(ParseFullDate(dateString), today)
    ensures ValidateDate(dateString, today) == (if IsLeapYear(ParseFullDate(dateString).year) then Accepted else Rejected(NonexistentError))
  {
    if IsLeapYear(ParseFullDate(dateString).year) {
      ValidateTodayOrLater(dateString, today);
    } else {
      ValidateNonexistent(dateString, today);
    }
  }

  /** An existing date before today is rejected as a past date. */
  lemma ValidatePast(dateString: string, today: Date)
    requires IsValid(today) && IsFullDateShape(dateString)
    requires IsValid(ParseFullDate(dateString)) && Before(ParseFullDate(dateString), today)
    ensures ValidateDate(dateString, today) == Rejected(PastError)
  {
    ShapedIsNotBlank(dateString);
    EpochDayOrder(ParseFullDate(dateString), today);
  }

  /** An existing date on or after today is accepted with no error. */
  lemma ValidateTodayOrLater(dateString: string, today: Date)
    requires IsValid(today) && IsFullDateShape(dateString)
    requires IsValid(ParseFullDate(dateString)) && !Before(ParseFullDate(dateString), today)
    ensures ValidateDate(dateString, today) == Accepted
  {
    ShapedIsNotBlank(dateString);
    EpochDayOrder(ParseFullDate(dateString), today);
  }

  /** The validator accepts exactly the blank strings and the well-shaped existing dates from today on. */
  lemma ValidateCharacterization(dateString: string, today: Date)
    requires IsValid(today)
    ensures ValidateDate(dateString, today).isValid <==>
      IsBlank(dateString)
      || (IsFullDateShape(dateString) && IsValid(ParseFullDate(dateString))
          && !Before(ParseFullDate(dateString), today))
  {
    if IsBlank(dateString) {
      ValidateBlank(dateString, today);
    } else if !IsFullDateShape(dateString) {
      ValidateMalformed(dateString, today);
    } else if !IsValid(ParseFullDate(dateString)) {
      ValidateNonexistent(dateString, today);
    } else if Before(ParseFullDate(dateString), today) {
      ValidatePast(dateString, today);
    } else {
      ValidateTodayOrLater(dateString, today);
    }
  }

  /** A date formatted as the calendar emits it passes the validator when it is today or later. */
  lemma ValidateFormatted(d: Date, today: Date)
    requires IsValid(today) && IsValid(d) && 1000 <= d.year <= 9999
    ensures ValidateDate(FormatYmd(d), today) == (if Before(d, today) then Rejected(PastError) else Accepted)
  {
    FormatYmdRoundTrip(d);
    ShapedIsNotBlank(FormatYmd(d));
    EpochDayOrder(d, today);
  }

  /** The year 2025 read from the first field of a date string. */
  lemma DigitsValue2025()
    ensures DigitsValue("2025") == 2025
  {
    assert "2025"[..3] == "202" && "202"[..2] == "20" && "20"[..1] == "2";
  }

  /** 30 February 2025 does not exist. */
  lemma ValidateFebruary30(today: Date)
    requires IsValid(today)
    ensures ValidateDate("2025-02-30", today) == Rejected(NonexistentError)
  {
    var s := "2025-02-30";
    DigitsValue2025();
    assert s[0..4] == "2025" && s[5..7] == "02" && s[8..10] == "30";
    assert "02"[..1] == "0" && "30"[..1] == "3";
    ValidateNonexistent(s, today);
  }

  /** Month 13 does not exist. */
  lemma ValidateMonth13(today: Date)
    requires IsValid(today)
    ensures ValidateDate("2025-13-01", today) == Rejected(NonexistentError)
  {
    var s := "2025-13-01";
    assert s[5..7] == "13" && "13"[..1] == "1";
    ValidateNonexistent(s, today);
  }

  /** Month 00 does not exist. */
  lemma ValidateMonth00(today: Date)
    requires IsValid(today)
    ensures ValidateDate("2025-00-10", today) == Rejected(NonexistentError)
  {
    var s := "2025-00-10";
    assert s[5..7] == "00" && "00"[..1] == "0";
    ValidateNonexistent(s, today);
  }
}
