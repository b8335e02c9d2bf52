/**
 * Calendar dates and year-months as the ledger stores them: dates are
 * written `YYYY-MM-DD` (ISO 8601:2004 section 4.1.2.2, extended format)
 * and budget months `YYYY-MM` (ISO 8601:2004 section 4.1.2.3 a, reduced
 * accuracy), and both are parsed strictly, rejecting impossible days.
 */
module Dates {
  import opened Wrappers
  import opened Text

  predicate IsLeapYear(y: int) {
    y % 4 == 0 && (y % 100 != 0 || y % 400 == 0)
  }

  function DaysInMonth(y: int, m: int): int {
    if m == 2 then (if IsLeapYear(y) then 29 else 28)
    else if m == 4 || m == 6 || m == 9 || m == 11 then 30
    else 31
  }

  datatype Date = Date(year: int, month: int, day: int) {
    /** A day that exists in the proleptic Gregorian calendar, years 1 to 9999. */
    predicate Valid() {
      1 <= year <= 9999 && 1 <= month <= 12 && 1 <= day <= DaysInMonth(year, month)
    }
  }

  type CalendarDate = d: Date | d.Valid() witness Date(2000, 1, 1)

  datatype YearMonth = YearMonth(year: int, month: int) {
    predicate Valid() {
      1 <= year <= 9999 && 1 <= month <= 12
    }
  }

  type CalendarMonth = ym: YearMonth | ym.Valid() witness YearMonth(2000, 1)

  /** `YearMonth.from(date)`. */
  function MonthOf(d: CalendarDate): CalendarMonth {
    YearMonth(d.year, d.month)
  }

  /** `LocalDate.compareTo` as an order: by year, then month, then day. */
  predicate OnOrBefore(a: CalendarDate, b: CalendarDate) {
    a.year < b.year
    || (a.year == b.year && a.month < b.month)
    || (a.year == b.year && a.month == b.month && a.day <= b.day)
  }

  lemma OnOrBeforeIsTotalOrder(a: CalendarDate, b: CalendarDate, c: CalendarDate)
    ensures OnOrBefore(a, b) || OnOrBefore(b, a)
    ensures OnOrBefore(a, b) && OnOrBefore(b, a) ==> a == b
    ensures OnOrBefore(a, b) && OnOrBefore(b, c) ==> OnOrBefore(a, c)
  {
  }

  /** `yyyy-MM-dd`. */
  function FormatDate(d: CalendarDate): (r: string)
    ensures |r| == 10 && r[4] == '-' && r[7] == '-'
    ensures AllDigits(r[..4]) && DigitsValue(r[..4]) == d.year
    ensures AllDigits(r[5..7]) && DigitsValue(r[5..7]) == d.month
    ensures AllDigits(r[8..]) && DigitsValue(r[8..]) == d.day
  {
    var r := Pad4(d.year) + "-" + Pad2(d.month) + "-" + Pad2(d.day);
    assert r[..4] == Pad4(d.year) && r[5..7] == Pad2(d.month) && r[8..] == Pad2(d.day);
    r
  }

  /**
   * `LocalDate.parse`: exactly `YYYY-MM-DD` naming a day that exists; `None`
   * for the exception. Only text the formatter writes parses, so parsing
   * is canonical.
   */
  function ParseDate(s: string): (r: Option<CalendarDate>)
    ensures r.Some? ==> FormatDate(r.value) == s
  {
    if |s| == 10 && s[4] == '-' && s[7] == '-'
       && AllDigits(s[..4]) && AllDigits(s[5..7]) && AllDigits(s[8..])
    then
      var d := Date(DigitsValue(s[..4]), DigitsValue(s[5..7]), DigitsValue(s[8..]));
      if d.Valid() then
        Pad4OfValue(s[..4]);
        Pad2OfValue(s[5..7]);
        Pad2OfValue(s[8..]);
        assert s == s[..4] + "-" + s[5..7] + "-" + s[8..];
        Some(d)
      else None
    else None
  }

  lemma ParseOfFormatDate(d: CalendarDate)
    ensures ParseDate(FormatDate(d)) == Some(d)
  {
    var s := FormatDate(d);
    assert s[..4] == Pad4(d.year);
    assert s[5..7] == Pad2(d.month);
    assert s[8..] == Pad2(d.day);
  }

  /** `YearMonth.toString`: `yyyy-MM`. */
  function FormatYearMonth(m: CalendarMonth): string {
    Pad4(m.year) + "-" + Pad2(m.month)
  }

  /** `YearMonth.parse`: exactly `YYYY-MM` with a month from 1 to 12. */
  function ParseYearMonth(s: string): (r: Option<CalendarMonth>) {
    if |s| == 7 && s[4] == '-' && AllDigits(s[..4]) && AllDigits(s[5..]) then
      var m := YearMonth(DigitsValue(s[..4]), DigitsValue(s[5..]));
      if m.Valid() then Some(m) else None
    else None
  }

  lemma ParseOfFormatYearMonth(m: CalendarMonth)
    ensures ParseYearMonth(FormatYearMonth(m)) == Some(m)
  {
    var s := FormatYearMonth(m);
    assert s[..4] == Pad4(m.year);
    assert s[5..] == Pad2(m.month);
  }

  lemma FormatOfParseYearMonth(s: string)
    requires ParseYearMonth(s).Some?
    ensures FormatYearMonth(ParseYearMonth(s).value) == s
  {
    Pad4OfValue(s[..4]);
    Pad2OfValue(s[5..]);
    assert s == s[..4] + "-" + s[5..];
  }
}
