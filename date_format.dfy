/**
 * `is_valid_date_format` and `strptime(date, "%Y-%m-%d")` (main.py): the
 * date string is matched against the groups CPython's `_strptime` builds for
 * the three directives, with nothing left over, and the numbers must then
 * name a real `datetime.date`.
 *
 *   %Y  four digits
 *   %m  `1[0-2]`, `0[1-9]` or `[1-9]`
 *   %d  `3[01]`, `[12]` digit, `0[1-9]`, `[1-9]` or a space and `[1-9]`
 */
module DateFormat {
  import opened Wrappers
  import opened Dates

  predicate IsDigit(c: char)
  {
    '0' <= c <= '9'
  }

  /** The value `int()` gives one character of a matched group; the padding space of `%d` counts as 0. */
  function CharValue(c: char): int
  {
    if IsDigit(c) then c as int - '0' as int else 0
  }

  function DigitChar(n: int): char
    requires 0 <= n <= 9
  {
    ('0' as int + n) as char
  }

  predicate IsYearToken(t: string)
  {
    |t| == 4 && IsDigit(t[0]) && IsDigit(t[1]) && IsDigit(t[2]) && IsDigit(t[3])
  }

  predicate IsMonthToken(t: string)
  {
    || (|t| == 1 && '1' <= t[0] <= '9')
    || (|t| == 2 && t[0] == '1' && '0' <= t[1] <= '2')
    || (|t| == 2 && t[0] == '0' && '1' <= t[1] <= '9')
  }

  predicate IsDayToken(t: string)
  {
    || (|t| == 1 && '1' <= t[0] <= '9')
    || (|t| == 2 && t[0] == '3' && (t[1] == '0' || t[1] == '1'))
    || (|t| == 2 && (t[0] == '1' || t[0] == '2') && IsDigit(t[1]))
    || (|t| == 2 && t[0] == '0' && '1' <= t[1] <= '9')
    || (|t| == 2 && t[0] == ' ' && '1' <= t[1] <= '9')
  }

  function YearValue(t: string): (y: int)
    requires IsYearToken(t)
    ensures 0 <= y <= 9999
  {
    1000 * CharValue(t[0]) + 100 * CharValue(t[1]) + 10 * CharValue(t[2]) + CharValue(t[3])
  }

  /** The value of a one- or two-character month or day group. */
  function FieldValue(t: string): int
    requires 1 <= |t| <= 2
  {
    if |t| == 1 then CharValue(t[0]) else 10 * CharValue(t[0]) + CharValue(t[1])
  }

  /** The day group is the whole rest of the string; the numbers must then name a real date. */
  function ParseDay(year: int, month: int, rest: string): (r: Option<Date>)
    ensures r.Some? ==> IsCalendarDate(r.value) && r.value == Date(year, month, r.value.day)
  {
    if !IsDayToken(rest) then None
    else
      var date := Date(year, month, FieldValue(rest));
      if IsCalendarDate(date) then Some(date) else None
  }

  /**
   * `strptime(s, "%Y-%m-%d")`: the date it returns, or None where it raises
   * ValueError. A two-character month group is tried first, but as the month
   * must be followed by '-', at most one split of the string can succeed.
   */
  function ParseDate(s: string): (r: Option<Date>)
    ensures r.Some? ==> IsCalendarDate(r.value) && r.value.year <= 9999
  {
    if |s| < 7 || !IsYearToken(s[..4]) || s[4] != '-' then None
    else if s[6] == '-' && IsMonthToken(s[5..6]) then
      ParseDay(YearValue(s[..4]), FieldValue(s[5..6]), s[7..])
    else if |s| >= 8 && s[7] == '-' && IsMonthToken(s[5..7]) then
      ParseDay(YearValue(s[..4]), FieldValue(s[5..7]), s[8..])
    else None
  }

  /** `is_valid_date_format`: strptime does not raise. */
  predicate IsValidDateFormat(s: string)
  {
    ParseDate(s).Some?
  }

  /** A year written as four digits, zero-padded on the left. */
  function Year4(y: int): (t: string)
    requires 0 <= y <= 9999
    ensures |t| == 4
  {
    [DigitChar(y / 1000), DigitChar(y / 100 % 10), DigitChar(y / 10 % 10), DigitChar(y % 10)]
  }

  /** A month or day number written as two digits, zero-padded on the left. */
  function Pad2(n: int): (t: string)
    requires 0 <= n <= 99
    ensures |t| == 2
  {
    [DigitChar(n / 10), DigitChar(n % 10)]
  }

  /** `t` writes month m: zero-padded, or as a single digit for months 1 to 9. */
  predicate MonthSpelt(t: string, m: int)
  {
    || (0 <= m <= 99 && t == Pad2(m))
    || (0 <= m <= 9 && t == [DigitChar(m)])
  }

  /** `t` writes day d: zero-padded, or for days 1 to 9 as a single digit or a space and a digit. */
  predicate DaySpelt(t: string, d: int)
  {
    || (0 <= d <= 99 && t == Pad2(d))
    || (0 <= d <= 9 && (t == [DigitChar(d)] || t == [' ', DigitChar(d)]))
  }

  /** `s` is a `%Y-%m-%d` spelling of d: four-digit year, '-', month, '-', day, and nothing else. */
  ghost predicate Spells(s: string, d: Date)
  {
    && 0 <= d.year <= 9999
    && exists m, t :: MonthSpelt(m, d.month) && DaySpelt(t, d.day) && s == Year4(d.year) + "-" + m + "-" + t
  }

  /**
   * The zero-padded `YYYY-MM-DD` spelling of a year, month and day
   * (what `date.isoformat()` prints, and how the forecast provider dates its days).
   */
  function IsoFormat(d: Date): (s: string)
    requires 0 <= d.year <= 9999 && 0 <= d.month <= 99 && 0 <= d.day <= 99
    ensures |s| == 10 && s[4] == '-' && s[7] == '-'
    ensures s[..4] == Year4(d.year) && s[5..7] == Pad2(d.month) && s[8..] == Pad2(d.day)
  {
    Year4(d.year) + "-" + Pad2(d.month) + "-" + Pad2(d.day)
  }

  /** A digit character read back is the digit it was written from. */
  lemma DigitBack(n: int)
    requires 0 <= n <= 9
    ensures IsDigit(DigitChar(n)) && CharValue(DigitChar(n)) == n
  {
  }

  /** Two zero-padded digits read back as the number, and are a month or a day group exactly when in range. */
  lemma TwoDigits(n: int)
    requires 0 <= n <= 99
    ensures FieldValue(Pad2(n)) == n
    ensures IsMonthToken(Pad2(n)) <==> 1 <= n <= 12
    ensures IsDayToken(Pad2(n)) <==> 1 <= n <= 31
  {
    var t := Pad2(n);
    DigitBack(n / 10);
    DigitBack(n % 10);
    assert CharValue(t[0]) == n / 10 && CharValue(t[1]) == n % 10;
  }

  /** Four zero-padded digits form a year group that reads back as the number. */
  lemma FourDigits(y: int)
    requires 0 <= y <= 9999
    ensures IsYearToken(Year4(y)) && YearValue(Year4(y)) == y
  {
    var q1, q2, q3 := y / 10, y / 100, y / 1000;
    assert y == 10 * q1 + y % 10;
    assert q1 == 10 * (q1 / 10) + q1 % 10;
    assert q2 == q1 / 10 && y / 10 % 10 == q1 % 10;
    assert q2 == 10 * (q2 / 10) + q2 % 10;
    assert q3 == q2 / 10;
    var t := Year4(y);
    assert CharValue(t[0]) == q3 && CharValue(t[1]) == q2 % 10;
    assert CharValue(t[2]) == q1 % 10 && CharValue(t[3]) == y % 10;
  }

  /** A digit character is written back by its own value. */
  lemma CharBack(c: char)
    requires IsDigit(c)
    ensures 0 <= CharValue(c) <= 9 && DigitChar(CharValue(c)) == c
  {
  }

  /** A two-character group of digits is the zero-padded spelling of its value. */
  lemma PairBack(t: string)
    requires |t| == 2 && IsDigit(t[0]) && IsDigit(t[1])
    ensures 0 <= FieldValue(t) <= 99 && Pad2(FieldValue(t)) == t
  {
    var a, b := CharValue(t[0]), CharValue(t[1]);
    CharBack(t[0]);
    CharBack(t[1]);
    assert (10 * a + b) / 10 == a && (10 * a + b) % 10 == b;
  }

  /** A year group is the four-digit spelling of its value. */
  lemma YearBack(t: string)
    requires IsYearToken(t)
    ensures Year4(YearValue(t)) == t
  {
    var a, b, c, e := CharValue(t[0]), CharValue(t[1]), CharValue(t[2]), CharValue(t[3]);
    CharBack(t[0]);
    CharBack(t[1]);
    CharBack(t[2]);
    CharBack(t[3]);
    var y := 1000 * a + 100 * b + 10 * c + e;
    assert y / 10 == 100 * a + 10 * b + c && y % 10 == e;
    assert y / 100 == 10 * a + b && y / 10 % 10 == c;
    assert y / 1000 == a && y / 100 % 10 == b;
  }

  /** A month group spells the month it is read as. */
  lemma MonthBack(t: string)
    requires IsMonthToken(t)
    ensures MonthSpelt(t, FieldValue(t))
  {
    if |t| == 1 {
      CharBack(t[0]);
      assert t == [DigitChar(FieldValue(t))];
    } else {
      PairBack(t);
    }
  }

  /** A day group spells the day it is read as. */
  lemma DayBack(t: string)
    requires IsDayToken(t)
    ensures DaySpelt(t, FieldValue(t))
  {
    if |t| == 1 {
      CharBack(t[0]);
      assert t == [DigitChar(FieldValue(t))];
    } else if t[0] == ' ' {
      CharBack(t[1]);
      assert FieldValue(t) == CharValue(t[1]);
      assert t == [' ', DigitChar(FieldValue(t))];
    } else {
      PairBack(t);
    }
  }

  /** A spelling of a month from 1 to 12 is a month group read back as that month. */
  lemma MonthForward(t: string, m: int)
    requires MonthSpelt(t, m) && 1 <= m <= 12
    ensures IsMonthToken(t) && FieldValue(t) == m
  {
    if t == Pad2(m) {
      TwoDigits(m);
    } else {
      DigitBack(m);
    }
  }

  /** A spelling of a day from 1 to 31 is a day group read back as that day. */
  lemma DayForward(t: string, d: int)
    requires DaySpelt(t, d) && 1 <= d <= 31
    ensures IsDayToken(t) && FieldValue(t) == d
  {
    if t == Pad2(d) {
      TwoDigits(d);
    } else {
      DigitBack(d);
    }
  }

  /** Whatever strptime accepts is a `%Y-%m-%d` spelling of the date it returns. */
  lemma ParsedIsSpelling(s: string)
    requires ParseDate(s).Some?
    ensures Spells(s, ParseDate(s).value)
  {
    var d := ParseDate(s).value;
    YearBack(s[..4]);
    var m, t;
    if s[6] == '-' && IsMonthToken(s[5..6]) {
      m, t := s[5..6], s[7..];
    } else {
      m, t := s[5..7], s[8..];
    }
    MonthBack(m);
    DayBack(t);
    assert s == s[..4] + "-" + m + "-" + t;
  }

  /** Every `%Y-%m-%d` spelling of a calendar date is accepted as that date. */
  lemma SpellingIsParsed(d: Date, m: string, t: string)
    requires IsCalendarDate(d) && d.year <= 9999
    requires MonthSpelt(m, d.month) && DaySpelt(t, d.day)
    ensures ParseDate(Year4(d.year) + "-" + m + "-" + t) == Some(d)
  {
    var s := Year4(d.year) + "-" + m + "-" + t;
    FourDigits(d.year);
    MonthForward(m, d.month);
    DayForward(t, d.day);
    assert s[..4] == Year4(d.year) && s[4] == '-';
    if |m| == 1 {
      assert s[5..6] == m && s[6] == '-' && s[7..] == t;
    } else {
      assert s[5..7] == m && s[7] == '-' && s[8..] == t;
      assert s[6] == m[1] && IsDigit(m[1]);
    }
  }

  /**
   * strptime accepts s as d exactly when d is a calendar date and s spells it
   * as a four-digit year, a month and a day separated by '-': so "2024/06/01",
   * "24-06-01" and "2024-06-01T00" are all refused.
   */
  lemma ParseDateIsSpelling(s: string, d: Date)
    ensures ParseDate(s) == Some(d) <==> IsCalendarDate(d) && Spells(s, d)
  {
    if ParseDate(s) == Some(d) {
      ParsedIsSpelling(s);
    }
    if IsCalendarDate(d) && Spells(s, d) {
      var m, t :| MonthSpelt(m, d.month) && DaySpelt(t, d.day) && s == Year4(d.year) + "-" + m + "-" + t;
      SpellingIsParsed(d, m, t);
    }
  }

  /** `is_valid_date_format` holds exactly for the `%Y-%m-%d` spellings of calendar dates. */
  lemma ValidDateFormatIsSpelling(s: string)
    ensures IsValidDateFormat(s) <==> exists d :: IsCalendarDate(d) && Spells(s, d)
  {
    if IsValidDateFormat(s) {
      ParseDateIsSpelling(s, ParseDate(s).value);
    }
    if exists d :: IsCalendarDate(d) && Spells(s, d) {
      var d :| IsCalendarDate(d) && Spells(s, d);
      ParseDateIsSpelling(s, d);
    }
  }

  /**
   * A zero-padded `YYYY-MM-DD` string is accepted exactly when it names a real
   * calendar date, and then it parses back to that date: "2024-13-40" and
   * "2023-02-29" are refused, "2024-02-29" is read as 29 February 2024.
   */
  lemma IsoFormatParsesBack(d: Date)
    requires 0 <= d.year <= 9999 && 0 <= d.month <= 99 && 0 <= d.day <= 99
    ensures ParseDate(IsoFormat(d)) == if IsCalendarDate(d) then Some(d) else None
  {
    var s := IsoFormat(d);
    var month, day := Pad2(d.month), Pad2(d.day);
    FourDigits(d.year);
    TwoDigits(d.month);
    TwoDigits(d.day);
    assert s[6] != '-';
    if IsMonthToken(month) {
      assert ParseDate(s) == ParseDay(d.year, d.month, day);
    } else {
      assert ParseDate(s) == None;
    }
  }

  /** Date strings spelt differently are different dates or not dates at all. */
  lemma IsoFormatInjective(a: Date, b: Date)
    requires IsCalendarDate(a) && a.year <= 9999 && IsCalendarDate(b) && b.year <= 9999
    ensures IsoFormat(a) == IsoFormat(b) <==> a == b
  {
    IsoFormatParsesBack(a);
    IsoFormatParsesBack(b);
  }
}
