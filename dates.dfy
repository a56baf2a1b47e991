/** Reading the calendar year and month out of an expense's `YYYY-MM-DD` date text,
    as the month filter does with the format "%Y-%m-%d". */
module Dates {
  import opened Wrappers

  predicate IsDigit(c: char) {
    '0' <= c <= '9'
  }

  function DigitValue(c: char): (v: int)
    requires IsDigit(c)
    ensures 0 <= v <= 9
  {
    c as int - '0' as int
  }

  function DigitChar(v: int): (c: char)
    requires 0 <= v <= 9
    ensures IsDigit(c) && DigitValue(c) == v
  {
    ('0' as int + v) as char
  }

  /** The value of the two digits at `d[i]` and `d[i + 1]`. */
  function TwoDigits(d: string, i: nat): int
    requires i + 1 < |d| && IsDigit(d[i]) && IsDigit(d[i + 1])
  {
    10 * DigitValue(d[i]) + DigitValue(d[i + 1])
  }

  /** A date text of exactly the shape `YYYY-MM-DD`, with a month in 1..12 and a day in 1..31
      (the ranges that the %m and %d conversions accept). */
  predicate WellFormedDate(d: string) {
    && |d| == 10
    && IsDigit(d[0]) && IsDigit(d[1]) && IsDigit(d[2]) && IsDigit(d[3])
    && d[4] == '-'
    && IsDigit(d[5]) && IsDigit(d[6])
    && d[7] == '-'
    && IsDigit(d[8]) && IsDigit(d[9])
    && 1 <= TwoDigits(d, 5) <= 12
    && 1 <= TwoDigits(d, 8) <= 31
  }

  /** The calendar year and 1-based month of a well-formed date; `None` for any other text. */
  function YearMonth(d: string): (r: Option<(int, int)>)
    ensures r.Some? <==> WellFormedDate(d)
    ensures r.Some? ==> 0 <= r.value.0 <= 9999 && 1 <= r.value.1 <= 12
  {
    if WellFormedDate(d) then
      Some((1000 * DigitValue(d[0]) + 100 * DigitValue(d[1]) + 10 * DigitValue(d[2]) + DigitValue(d[3]),
            TwoDigits(d, 5)))
    else
      None
  }

  /** The `YYYY-MM-DD` text of a calendar date, with zero padding. */
  function FormatDate(year: int, month: int, day: int): (d: string)
    requires 0 <= year <= 9999 && 1 <= month <= 12 && 1 <= day <= 31
  {
    [DigitChar(year / 1000), DigitChar(year / 100 % 10), DigitChar(year / 10 % 10), DigitChar(year % 10), '-',
     DigitChar(month / 10), DigitChar(month % 10), '-',
     DigitChar(day / 10), DigitChar(day % 10)]
  }

  lemma FourDigitsRecompose(n: int)
    requires 0 <= n <= 9999
    ensures 1000 * (n / 1000) + 100 * (n / 100 % 10) + 10 * (n / 10 % 10) + n % 10 == n
  {
    var t := n / 10;
    assert n == 10 * t + n % 10;
    var h := n / 100;
    assert h == t / 10;
    assert t == 10 * h + t % 10;
    assert n / 1000 == h / 10;
    assert h == 10 * (h / 10) + h % 10;
  }

  /** Formatting a date and reading it back yields the same year and month: every date the
      presentation layer writes is one the month filter can place. */
  lemma YearMonthOfFormatDate(year: int, month: int, day: int)
    requires 0 <= year <= 9999 && 1 <= month <= 12 && 1 <= day <= 31
    ensures WellFormedDate(FormatDate(year, month, day))
    ensures YearMonth(FormatDate(year, month, day)) == Some((year, month))
  {
    var d := FormatDate(year, month, day);
    assert TwoDigits(d, 5) == month;
    assert TwoDigits(d, 8) == day;
    FourDigitsRecompose(year);
  }
}
