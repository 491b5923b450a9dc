/**
 * Instants and the one date layout the reconciliation parses.
 *
 * An instant is a whole number of seconds since 0001-01-01T00:00:00 UTC,
 * which is the instant Go's zero `time.Time{}` denotes; so the zero time
 * the scheduler returns on failure is the instant 0.
 */
module Calendar {
  import opened Wrappers

  type Time = int

  /** Go's `time.Time{}`: the value a due date keeps when none is computed. */
  const ZeroTime: Time := 0

  const SecondsPerDay: int := 86400

  predicate IsDigit(c: char) {
    '0' <= c <= '9'
  }

  predicate AllDigits(s: string) {
    forall i :: 0 <= i < |s| ==> IsDigit(s[i])
  }

  /** The value of a string of decimal digits. */
  function Decimal(s: string): nat
    requires AllDigits(s)
  {
    if s == [] then 0
    else 10 * Decimal(s[..|s| - 1]) + (s[|s| - 1] as int - '0' as int)
  }

  /** The proleptic Gregorian leap-year rule. */
  predicate IsLeap(year: int) {
    year % 4 == 0 && (year % 100 != 0 || year % 400 == 0)
  }

  function DaysIn(month: int, year: int): (n: int)
    requires 1 <= month <= 12
    ensures 28 <= n <= 31
  {
    if month == 2 && IsLeap(year) then 29
    else [31, 28, 31, 30, 31, 30, 31, 31, 30, 31, 30, 31][month - 1]
  }

  function DaysBeforeMonth(month: int, year: int): int
    requires 1 <= month <= 12
  {
    [0, 31, 59, 90, 120, 151, 181, 212, 243, 273, 304, 334][month - 1]
    + (if month > 2 && IsLeap(year) then 1 else 0)
  }

  /** Days from 0001-01-01 to January 1st of `year` (floor division, so year 0 works too). */
  function DaysBeforeYear(year: int): int {
    var y := year - 1;
    365 * y + y / 4 - y / 100 + y / 400
  }

  /** Days from 0001-01-01 to the given calendar date. */
  function DayNumber(year: int, month: int, day: int): int
    requires 1 <= month <= 12
  {
    DaysBeforeYear(year) + DaysBeforeMonth(month, year) + day - 1
  }

  /**
   * `time.Parse("2006-01-02", s)`: four year digits, two month digits and two
   * day digits separated by '-', nothing more, a month in 1..12 and a day that
   * exists in that month; the instant is midnight UTC of that date.
   */
  function ParseDate(s: string): (r: Option<Time>)
    ensures r.Some? ==> |s| == 10 && s[4] == '-' && s[7] == '-'
    ensures r.Some? ==> r.value % SecondsPerDay == 0
  {
    if |s| == 10 && AllDigits(s[0..4]) && s[4] == '-' && AllDigits(s[5..7])
       && s[7] == '-' && AllDigits(s[8..10])
    then
      var year, month, day := Decimal(s[0..4]), Decimal(s[5..7]), Decimal(s[8..10]);
      if 1 <= month <= 12 && 1 <= day <= DaysIn(month, year)
      then Some(DayNumber(year, month, day) * SecondsPerDay)
      else None
    else None
  }

  lemma DecimalYear2023()
    ensures AllDigits("2023") && Decimal("2023") == 2023
  {
    assert "2023"[..3] == "202" && "202"[..2] == "20" && "20"[..1] == "2" && "2"[..0] == "";
  }

  /** January 2023, day `day` (written as the two digits `d1 d2`), parses to its midnight. */
  lemma ParseJanuary2023(d1: char, d2: char, day: int)
    requires IsDigit(d1) && IsDigit(d2) && day == 10 * (d1 as int - '0' as int) + (d2 as int - '0' as int)
    requires 1 <= day <= 31
    ensures ParseDate("2023-01-" + [d1, d2]) == Some((738519 + day) * SecondsPerDay)
  {
    var s := "2023-01-" + [d1, d2];
    DecimalYear2023();
    assert s[0..4] == "2023" && s[5..7] == "01" && s[8..10] == [d1, d2];
    assert "01"[..1] == "0" && "0"[..0] == "";
    assert [d1, d2][..1] == [d1] && [d1][..0] == [];
    assert Decimal("01") == 1 && Decimal([d1, d2]) == day;
    assert DaysBeforeYear(2023) == 738520;
  }
}
