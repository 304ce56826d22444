/** `_date_to_ms`: `datetime.strptime(s, "%Y-%m-%d")` read as UTC midnight
    and turned into epoch milliseconds. Parsing follows the regular
    expression `strptime` builds for that format; the arithmetic follows the
    proleptic Gregorian ordinal of Python's `datetime` (0001-01-01 is day 1). */
module Dates {
  import opened Wrappers

  datatype Date = Date(year: int, month: int, day: int)

  predicate IsLeap(y: int)
  {
    y % 4 == 0 && (y % 100 != 0 || y % 400 == 0)
  }

  function DaysInMonth(y: int, m: int): int
    requires 1 <= m <= 12
  {
    if m == 2 then (if IsLeap(y) then 29 else 28)
    else if m == 4 || m == 6 || m == 9 || m == 11 then 30
    else 31
  }

  function YearLength(y: int): int
  {
    if IsLeap(y) then 366 else 365
  }

  /** A date `datetime` accepts: year 1 to 9999, a real month, a day that
      month has. */
  predicate ValidDate(d: Date)
  {
    1 <= d.year <= 9999 && 1 <= d.month <= 12 && 1 <= d.day <= DaysInMonth(d.year, d.month)
  }

  // ---------------------------------------------------------------------
  // Parsing
  // ---------------------------------------------------------------------

  predicate IsDigit(c: char)
  {
    '0' <= c <= '9'
  }

  function Digit(c: char): (v: int)
    requires IsDigit(c)
    ensures 0 <= v <= 9
  {
    c as int - '0' as int
  }

  /** A matched group: its numeric value and how many characters it took. */
  datatype Token = Token(value: int, len: nat)

  /** The month group `1[0-2]|0[1-9]|[1-9]` followed by the literal `-`:
      alternatives are tried in order, and one whose match is not followed by
      `-` is given up for the next. */
  function MonthAt(s: string, i: nat): (t: Option<Token>)
    ensures t.Some? ==> 1 <= t.value.value <= 12 && 1 <= t.value.len <= 2
    ensures t.Some? ==> i + t.value.len < |s| && s[i + t.value.len] == '-'
  {
    if i + 2 < |s| && s[i] == '1' && '0' <= s[i + 1] <= '2' && s[i + 2] == '-' then
      Some(Token(10 + Digit(s[i + 1]), 2))
    else if i + 2 < |s| && s[i] == '0' && '1' <= s[i + 1] <= '9' && s[i + 2] == '-' then
      Some(Token(Digit(s[i + 1]), 2))
    else if i + 1 < |s| && '1' <= s[i] <= '9' && s[i + 1] == '-' then
      Some(Token(Digit(s[i]), 1))
    else None
  }

  /** The day group `3[01]|[12]\d|0[1-9]|[1-9]| [1-9]`, the last one of the
      pattern: the first alternative that matches is kept. */
  function DayAt(s: string, i: nat): (t: Option<Token>)
    ensures t.Some? ==> 1 <= t.value.value <= 31 && 1 <= t.value.len <= 2 && i + t.value.len <= |s|
  {
    if i + 1 < |s| && s[i] == '3' && '0' <= s[i + 1] <= '1' then
      Some(Token(30 + Digit(s[i + 1]), 2))
    else if i + 1 < |s| && '1' <= s[i] <= '2' && IsDigit(s[i + 1]) then
      Some(Token(10 * Digit(s[i]) + Digit(s[i + 1]), 2))
    else if i + 1 < |s| && s[i] == '0' && '1' <= s[i + 1] <= '9' then
      Some(Token(Digit(s[i + 1]), 2))
    else if i < |s| && '1' <= s[i] <= '9' then
      Some(Token(Digit(s[i]), 1))
    else if i + 1 < |s| && s[i] == ' ' && '1' <= s[i + 1] <= '9' then
      Some(Token(Digit(s[i + 1]), 2))
    else None
  }

  /** `strptime(s, "%Y-%m-%d")`: four digits, `-`, a month, `-`, a day, and
      nothing after it ("unconverted data remains" otherwise); then the date
      must exist. `None` is the `ValueError`. */
  function ParseDate(s: string): (r: Option<Date>)
    ensures r.Some? ==> ValidDate(r.value)
    ensures r.Some? ==> 8 <= |s| <= 10 && s[4] == '-' && forall i :: 0 <= i < 4 ==> IsDigit(s[i])
  {
    if |s| < 5 || !(IsDigit(s[0]) && IsDigit(s[1]) && IsDigit(s[2]) && IsDigit(s[3])) || s[4] != '-' then
      None
    else
      var year := 1000 * Digit(s[0]) + 100 * Digit(s[1]) + 10 * Digit(s[2]) + Digit(s[3]);
      match MonthAt(s, 5)
      case None => None
      case Some(m) =>
        match DayAt(s, 5 + m.len + 1)
        case None => None
        case Some(d) =>
          if 5 + m.len + 1 + d.len != |s| then None
          else if ValidDate(Date(year, m.value, d.value)) then Some(Date(year, m.value, d.value))
          else None
  }

  // ---------------------------------------------------------------------
  // Ordinal days and epoch milliseconds
  // ---------------------------------------------------------------------

  /** Days before January 1st of `y`, counted from 0001-01-01, in closed form. */
  function DaysBeforeYear(y: int): (days: int)
    requires y >= 1
    ensures 365 * (y - 1) <= days <= 366 * (y - 1)
  {
    var p := y - 1;
    p * 365 + p / 4 - p / 100 + p / 400
  }

  /** Days in the year before the first of month `m`. */
  function DaysBeforeMonth(y: int, m: int): int
    requires 1 <= m <= 12
  {
    [0, 31, 59, 90, 120, 151, 181, 212, 243, 273, 304, 334][m - 1]
      + (if m > 2 && IsLeap(y) then 1 else 0)
  }

  /** `date.toordinal()`. */
  function Ordinal(d: Date): (o: int)
    requires ValidDate(d)
    ensures DaysBeforeYear(d.year) < o <= DaysBeforeYear(d.year) + YearLength(d.year)
  {
    DayOfYearFits(d);
    DaysBeforeYear(d.year) + DaysBeforeMonth(d.year, d.month) + d.day
  }

  /** A valid date's day of the year is at most the year's length. */
  lemma DayOfYearFits(d: Date)
    requires ValidDate(d)
    ensures DaysBeforeMonth(d.year, d.month) + d.day <= YearLength(d.year)
  {
    if d.month < 12 {
      DaysBeforeMonthIncreasing(d.year, d.month, 12);
    }
  }

  /** The ordinal of 1970-01-01, the Unix epoch. */
  const EpochOrdinal: int := 719163

  const MsPerDay: int := 86_400_000

  /** `_date_to_ms`: `None` when `strptime` raises. */
  function DateToMs(s: string): (ms: Option<int>)
    ensures ms.Some? ==> ms.value % MsPerDay == 0
    ensures ms.Some? <==> ParseDate(s).Some?
  {
    match ParseDate(s)
    case None => None
    case Some(d) =>
      var days := Ordinal(d) - EpochOrdinal;
      WholeDays(days);
      Some(days * MsPerDay)
  }

  lemma WholeDays(days: int)
    ensures (days * MsPerDay) % MsPerDay == 0
  {
  }

  // ---------------------------------------------------------------------
  // The calendar, counted year by year
  // ---------------------------------------------------------------------

  /** Days before January 1st of `y`, adding up the length of every earlier
      year: the reference for the closed form. */
  function DaysBeforeYearByCount(y: int): int
    requires y >= 1
    decreases y
  {
    if y == 1 then 0 else DaysBeforeYearByCount(y - 1) + YearLength(y - 1)
  }

  lemma YearStep(y: int)
    requires y >= 1
    ensures DaysBeforeYear(y + 1) == DaysBeforeYear(y) + YearLength(y)
  {
    LeapsThrough(y);
  }

  /** Leap years up to `y` are one more than up to `y - 1` exactly when `y`
      is a leap year. */
  lemma LeapsThrough(y: int)
    requires y >= 1
    ensures y / 4 - y / 100 + y / 400 == (y - 1) / 4 - (y - 1) / 100 + (y - 1) / 400 + (if IsLeap(y) then 1 else 0)
  {
    CountStep(y);
    Divisibility(y);
  }

  /** Counting multiples of 4, 100 and 400 up to `y` instead of `y - 1` adds
      one for each that divides `y`. */
  lemma CountStep(y: int)
    requires y >= 1
    ensures y / 4 == (y - 1) / 4 + (if y % 4 == 0 then 1 else 0)
    ensures y / 100 == (y - 1) / 100 + (if y % 100 == 0 then 1 else 0)
    ensures y / 400 == (y - 1) / 400 + (if y % 400 == 0 then 1 else 0)
  {
  }

  /** A multiple of 400 is a multiple of 100, and a multiple of 100 is a
      multiple of 4. */
  lemma Divisibility(y: int)
    ensures y % 400 == 0 ==> y % 100 == 0
    ensures y % 100 == 0 ==> y % 4 == 0
  {
    if y % 400 == 0 {
      var k := y / 400;
      assert y == 400 * k;
      assert y / 100 == 4 * k;
    }
    if y % 100 == 0 {
      var k := y / 100;
      assert y == 100 * k;
      assert y / 4 == 25 * k;
    }
  }

  /** The closed form counts the leap years correctly. */
  lemma {:induction false} DaysBeforeYearCounts(y: int)
    requires y >= 1
    ensures DaysBeforeYear(y) == DaysBeforeYearByCount(y)
    decreases y
  {
    if y > 1 {
      DaysBeforeYearCounts(y - 1);
      YearStep(y - 1);
    }
  }

  lemma {:induction false} DaysBeforeYearIncreasing(y1: int, y2: int)
    requires 1 <= y1 < y2
    ensures DaysBeforeYear(y1) + YearLength(y1) <= DaysBeforeYear(y2)
    decreases y2 - y1
  {
    YearStep(y1);
    if y1 + 1 < y2 {
      DaysBeforeYearIncreasing(y1 + 1, y2);
    }
  }

  lemma MonthStep(y: int, m: int)
    requires 1 <= m < 12
    ensures DaysBeforeMonth(y, m + 1) == DaysBeforeMonth(y, m) + DaysInMonth(y, m)
  {
  }

  lemma {:induction false} DaysBeforeMonthIncreasing(y: int, m1: int, m2: int)
    requires 1 <= m1 < m2 <= 12
    ensures DaysBeforeMonth(y, m1) + DaysInMonth(y, m1) <= DaysBeforeMonth(y, m2)
    decreases m2 - m1
  {
    MonthStep(y, m1);
    if m1 + 1 < m2 {
      DaysBeforeMonthIncreasing(y, m1 + 1, m2);
    }
  }

  /** Calendar order of dates. */
  predicate Before(d1: Date, d2: Date)
  {
    d1.year < d2.year
    || (d1.year == d2.year && d1.month < d2.month)
    || (d1.year == d2.year && d1.month == d2.month && d1.day < d2.day)
  }

  /** A later date has a strictly larger ordinal. */
  lemma OrdinalIncreasing(d1: Date, d2: Date)
    requires ValidDate(d1) && ValidDate(d2) && Before(d1, d2)
    ensures Ordinal(d1) < Ordinal(d2)
  {
    var y1, m1 := d1.year, d1.month;
    if y1 < d2.year {
      DaysBeforeYearIncreasing(y1, d2.year);
    } else if m1 < d2.month {
      DaysBeforeMonthIncreasing(y1, m1, d2.month);
    }
  }

  /** Later dates give strictly larger millisecond values, so two spellings of
      dates give the same value only when they name the same day. */
  lemma DateToMsIncreasing(s1: string, s2: string)
    requires ParseDate(s1).Some? && ParseDate(s2).Some?
    ensures Before(ParseDate(s1).value, ParseDate(s2).value) ==> DateToMs(s1).value < DateToMs(s2).value
    ensures DateToMs(s1) == DateToMs(s2) ==> ParseDate(s1) == ParseDate(s2)
  {
    var d1, d2 := ParseDate(s1).value, ParseDate(s2).value;
    if Before(d1, d2) {
      OrdinalIncreasing(d1, d2);
    } else if Before(d2, d1) {
      OrdinalIncreasing(d2, d1);
    }
  }

  // ---------------------------------------------------------------------
  // The canonical spelling
  // ---------------------------------------------------------------------

  function DigitChar(v: int): (c: char)
    requires 0 <= v <= 9
    ensures IsDigit(c) && Digit(c) == v
  {
    ('0' as int + v) as char
  }

  /** `YYYY-MM-DD`, zero-padded. */
  function Format(d: Date): string
    requires ValidDate(d)
  {
    var y := d.year;
    [DigitChar(y / 1000), DigitChar(y / 100 % 10), DigitChar(y / 10 % 10), DigitChar(y % 10), '-',
     DigitChar(d.month / 10), DigitChar(d.month % 10), '-',
     DigitChar(d.day / 10), DigitChar(d.day % 10)]
  }

  lemma YearDigits(y: int)
    requires 0 <= y <= 9999
    ensures 1000 * (y / 1000) + 100 * (y / 100 % 10) + 10 * (y / 10 % 10) + y % 10 == y
    ensures 0 <= y / 1000 <= 9
  {
    var q1, e := y / 10, y % 10;
    var q2, c := q1 / 10, q1 % 10;
    var q3, b := q2 / 10, q2 % 10;
    assert y == 100 * q2 + (10 * c + e);
    assert y / 100 == q2;
    assert y == 1000 * q3 + (100 * b + 10 * c + e);
    assert y / 1000 == q3;
  }

  /** Every date `datetime` accepts parses back from its canonical spelling. */
  lemma ParseFormat(d: Date)
    requires ValidDate(d)
    ensures ParseDate(Format(d)) == Some(d)
  {
    var s := Format(d);
    YearDigits(d.year);
    assert 1000 * Digit(s[0]) + 100 * Digit(s[1]) + 10 * Digit(s[2]) + Digit(s[3]) == d.year;
    FormatMonth(d);
    FormatDay(d);
  }

  lemma FormatMonth(d: Date)
    requires ValidDate(d)
    ensures MonthAt(Format(d), 5) == Some(Token(d.month, 2))
  {
    var s := Format(d);
    assert s[5] == DigitChar(d.month / 10) && s[6] == DigitChar(d.month % 10) && s[7] == '-';
  }

  lemma FormatDay(d: Date)
    requires ValidDate(d)
    ensures DayAt(Format(d), 8) == Some(Token(d.day, 2))
  {
    var s := Format(d);
    assert s[8] == DigitChar(d.day / 10) && s[9] == DigitChar(d.day % 10);
  }

  /** The Unix epoch is zero and the next day one day of milliseconds later. */
  lemma EpochExamples()
    ensures DateToMs("1970-01-01") == Some(0)
    ensures DateToMs("1970-01-02") == Some(MsPerDay)
  {
    assert ParseDate("1970-01-01") == Some(Date(1970, 1, 1)) by {
      assert MonthAt("1970-01-01", 5) == Some(Token(1, 2));
      assert DayAt("1970-01-01", 8) == Some(Token(1, 2));
    }
    assert ParseDate("1970-01-02") == Some(Date(1970, 1, 2)) by {
      assert MonthAt("1970-01-02", 5) == Some(Token(1, 2));
      assert DayAt("1970-01-02", 8) == Some(Token(2, 2));
    }
  }

  /** `strptime` also takes one-digit months and days. */
  lemma ShortFieldsAccepted()
    ensures ParseDate("2024-1-5") == Some(Date(2024, 1, 5))
  {
    assert MonthAt("2024-1-5", 5) == Some(Token(1, 1));
    assert DayAt("2024-1-5", 7) == Some(Token(5, 1));
  }

  /** A day the month does not have is refused. */
  lemma NoSuchDayRejected()
    ensures ParseDate("2023-02-29") == None
    ensures ParseDate("0000-01-01") == None
  {
    assert MonthAt("2023-02-29", 5) == Some(Token(2, 2));
    assert DayAt("2023-02-29", 8) == Some(Token(29, 2));
    assert MonthAt("0000-01-01", 5) == Some(Token(1, 2));
    assert DayAt("0000-01-01", 8) == Some(Token(1, 2));
  }

  /** Text that does not match the pattern is refused. */
  lemma MalformedRejected()
    ensures ParseDate("2024-13-01") == None
    ensures ParseDate("2024-01-32") == None
    ensures ParseDate("2024/01/01") == None
    ensures ParseDate("2024-01-01T00") == None
  {
    assert MonthAt("2024-01-32", 5) == Some(Token(1, 2));
    assert DayAt("2024-01-32", 8) == Some(Token(3, 1));
    assert MonthAt("2024-01-01T00", 5) == Some(Token(1, 2));
    assert DayAt("2024-01-01T00", 8) == Some(Token(1, 2));
  }
}
