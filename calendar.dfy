/**
 * Calendar arithmetic of Python's `datetime.date` (proleptic Gregorian, years 1..9999),
 * the month-start enumeration of `pandas.date_range(start, end, freq='MS')`, and the
 * text forms the code reads and writes: `strptime(_, "%Y-%m-%d")` and `isoformat()`.
 */
module Calendar {
  import opened Wrappers

  datatype Date = Date(year: int, month: int, day: int)

  const MinYear := 1
  const MaxYear := 9999

  predicate IsLeapYear(y: int) {
    y % 4 == 0 && (y % 100 != 0 || y % 400 == 0)
  }

  function DaysInYear(y: int): int {
    if IsLeapYear(y) then 366 else 365
  }

  function DaysInMonth(y: int, m: int): int
    requires 1 <= m <= 12
  {
    if m == 2 then (if IsLeapYear(y) then 29 else 28)
    else if m == 4 || m == 6 || m == 9 || m == 11 then 30
    else 31
  }

  /** A date `datetime.date(year, month, day)` accepts. */
  predicate ValidDate(d: Date) {
    MinYear <= d.year <= MaxYear && 1 <= d.month <= 12 && 1 <= d.day <= DaysInMonth(d.year, d.month)
  }

  /** `a < b`: Python compares dates by year, then month, then day. */
  predicate Before(a: Date, b: Date) {
    a.year < b.year || (a.year == b.year && (a.month < b.month || (a.month == b.month && a.day < b.day)))
  }

  /** A number that orders dates as `Before` does (`ORDER BY` on a DATE column). */
  function DateKey(d: Date): int {
    d.year * 10000 + d.month * 100 + d.day
  }

  lemma DateKeyOrder(a: Date, b: Date)
    requires ValidDate(a) && ValidDate(b)
    ensures Before(a, b) <==> DateKey(a) < DateKey(b)
    ensures DateKey(a) == DateKey(b) <==> a == b
  {
  }

  // ---------------------------------------------------------------------------
  // Day numbers (`date.toordinal()`, 0001-01-01 is day 1)
  // ---------------------------------------------------------------------------

  function DaysBeforeYear(y: int): int
    requires y >= 1
  {
    var p := y - 1;
    p * 365 + p / 4 - p / 100 + p / 400
  }

  function CumulativeDays(m: int): int
    requires 1 <= m <= 12
  {
    [0, 31, 59, 90, 120, 151, 181, 212, 243, 273, 304, 334][m - 1]
  }

  function DaysBeforeMonth(y: int, m: int): int
    requires 1 <= m <= 12
  {
    CumulativeDays(m) + (if m > 2 && IsLeapYear(y) then 1 else 0)
  }

  function Ordinal(d: Date): int
    requires ValidDate(d)
  {
    DaysBeforeYear(d.year) + DaysBeforeMonth(d.year, d.month) + d.day
  }

  /** `(b - a).days` for two dates. */
  function DaysBetween(a: Date, b: Date): int
    requires ValidDate(a) && ValidDate(b)
  {
    Ordinal(b) - Ordinal(a)
  }

  lemma DivStep4(y: int)
    requires y >= 1
    ensures y / 4 - (y - 1) / 4 == if y % 4 == 0 then 1 else 0
  {
    var q, r := (y - 1) / 4, (y - 1) % 4;
    DivMod(y - 1, 4, q, r);
    if r == 3 {
      DivMod(y, 4, q + 1, 0);
    } else {
      DivMod(y, 4, q, r + 1);
    }
  }

  lemma DivStep100(y: int)
    requires y >= 1
    ensures y / 100 - (y - 1) / 100 == if y % 100 == 0 then 1 else 0
  {
    var q, r := (y - 1) / 100, (y - 1) % 100;
    DivMod(y - 1, 100, q, r);
    if r == 99 {
      DivMod(y, 100, q + 1, 0);
    } else {
      DivMod(y, 100, q, r + 1);
    }
  }

  lemma DivStep400(y: int)
    requires y >= 1
    ensures y / 400 - (y - 1) / 400 == if y % 400 == 0 then 1 else 0
  {
    var q, r := (y - 1) / 400, (y - 1) % 400;
    DivMod(y - 1, 400, q, r);
    if r == 399 {
      DivMod(y, 400, q + 1, 0);
    } else {
      DivMod(y, 400, q, r + 1);
    }
  }

  lemma DaysBeforeYearStep(y: int)
    requires y >= 1
    ensures DaysBeforeYear(y + 1) == DaysBeforeYear(y) + DaysInYear(y)
  {
    var a, b, c := y / 4 - (y - 1) / 4, y / 100 - (y - 1) / 100, y / 400 - (y - 1) / 400;
    DivStep4(y);
    DivStep100(y);
    DivStep400(y);
    assert DaysBeforeYear(y + 1) - DaysBeforeYear(y) == 365 + a - b + c;
    LeapByDivisors(y);
  }

  lemma LeapByDivisors(y: int)
    ensures DaysInYear(y) - 365
         == (if y % 4 == 0 then 1 else 0) - (if y % 100 == 0 then 1 else 0) + (if y % 400 == 0 then 1 else 0)
  {
    if y % 400 == 0 {
      DivMod(y, 400, y / 400, 0);
      DivMod(y, 100, 4 * (y / 400), 0);
      DivMod(y, 4, 100 * (y / 400), 0);
    } else if y % 100 == 0 {
      DivMod(y, 100, y / 100, 0);
      DivMod(y, 4, 25 * (y / 100), 0);
    }
  }

  lemma {:induction false} DaysBeforeYearGrows(a: int, b: int)
    requires 1 <= a < b
    ensures DaysBeforeYear(a) + DaysInYear(a) <= DaysBeforeYear(b)
    decreases b - a
  {
    DaysBeforeYearStep(a);
    if a + 1 < b {
      DaysBeforeYearGrows(a + 1, b);
    }
  }

  lemma DayOfYearBound(d: Date)
    requires ValidDate(d)
    ensures 1 <= DaysBeforeMonth(d.year, d.month) + d.day <= DaysInYear(d.year)
  {
  }

  lemma DaysBeforeMonthGrows(y: int, a: int, b: int)
    requires 1 <= a < b <= 12
    ensures DaysBeforeMonth(y, a) + DaysInMonth(y, a) <= DaysBeforeMonth(y, b)
  {
  }

  /** Comparing dates is comparing their day numbers. */
  lemma BeforeIsOrdinalLess(a: Date, b: Date)
    requires ValidDate(a) && ValidDate(b)
    ensures Before(a, b) <==> Ordinal(a) < Ordinal(b)
  {
    if a.year < b.year {
      DayOfYearBound(a);
      DaysBeforeYearGrows(a.year, b.year);
    } else if b.year < a.year {
      DayOfYearBound(b);
      DaysBeforeYearGrows(b.year, a.year);
    } else if a.month < b.month {
      DaysBeforeMonthGrows(a.year, a.month, b.month);
    } else if b.month < a.month {
      DaysBeforeMonthGrows(a.year, b.month, a.month);
    }
  }

  /** The same day of a month one year later is at least 365 days away. */
  lemma YearLater(y: int, m: int)
    requires ValidDate(Date(y, m, 1)) && ValidDate(Date(y + 1, m, 1))
    ensures Ordinal(Date(y + 1, m, 1)) - Ordinal(Date(y, m, 1)) >= 365
  {
    DaysBeforeYearStep(y);
  }

  // ---------------------------------------------------------------------------
  // Month starts: `pandas.date_range(start, end, freq='MS')`
  // ---------------------------------------------------------------------------

  /** Months counted from year 0: the month of `d`. */
  function MonthIndex(d: Date): int {
    d.year * 12 + d.month - 1
  }

  /** The first day of month number `k`. */
  function MonthStart(k: int): (d: Date)
    ensures MonthIndex(d) == k && d.day == 1
  {
    Date(k / 12, k % 12 + 1, 1)
  }

  function MonthStartsFrom(lo: int, hi: int): (r: seq<Date>)
    ensures |r| == if lo <= hi then hi - lo + 1 else 0
    ensures forall i :: 0 <= i < |r| ==> r[i] == MonthStart(lo + i)
    decreases hi - lo
  {
    if lo > hi then [] else [MonthStart(lo)] + MonthStartsFrom(lo + 1, hi)
  }

  /**
   * The first-of-month dates in `[start, end]`, ascending: the first month start not before
   * `start`, up to the first day of `end`'s own month.
   */
  function MonthStarts(start: Date, end: Date): seq<Date> {
    MonthStartsFrom(MonthIndex(start) + (if start.day == 1 then 0 else 1), MonthIndex(end))
  }

  /** For dates with months in 1..12, month order is date order. */
  lemma MonthIndexOrder(a: Date, b: Date)
    requires 1 <= a.month <= 12 && 1 <= b.month <= 12
    ensures MonthIndex(a) < MonthIndex(b) ==> Before(a, b)
    ensures MonthIndex(a) == MonthIndex(b) ==> a.year == b.year && a.month == b.month
  {
  }

  lemma MonthStartOf(d: Date)
    requires ValidDate(d) && d.day == 1
    ensures MonthStart(MonthIndex(d)) == d
  {
  }

  /** Every enumerated date is a real first of a month inside `[start, end]`. */
  lemma MonthStartsSound(start: Date, end: Date, i: int)
    requires ValidDate(start) && ValidDate(end)
    requires 0 <= i < |MonthStarts(start, end)|
    ensures var d := MonthStarts(start, end)[i];
      ValidDate(d) && d.day == 1 && !Before(d, start) && !Before(end, d)
  {
    var lo := MonthIndex(start) + (if start.day == 1 then 0 else 1);
    var d := MonthStart(lo + i);
    assert MonthStarts(start, end)[i] == d;
    MonthIndexOrder(start, d);
    MonthIndexOrder(d, end);
    if MonthIndex(d) == MonthIndex(start) {
      assert d == start;
    }
  }

  /** Every first of a month inside `[start, end]` is enumerated. */
  lemma MonthStartsComplete(start: Date, end: Date, d: Date)
    requires ValidDate(start) && ValidDate(end) && ValidDate(d) && d.day == 1
    requires !Before(d, start) && !Before(end, d)
    ensures d in MonthStarts(start, end)
  {
    var lo := MonthIndex(start) + (if start.day == 1 then 0 else 1);
    MonthIndexOrder(d, start);
    MonthIndexOrder(end, d);
    MonthStartOf(d);
    assert MonthStarts(start, end)[MonthIndex(d) - lo] == d;
  }

  /** The enumeration is strictly ascending. */
  lemma MonthStartsAscending(start: Date, end: Date, i: int, j: int)
    requires 0 <= i < j < |MonthStarts(start, end)|
    ensures Before(MonthStarts(start, end)[i], MonthStarts(start, end)[j])
  {
    var r := MonthStarts(start, end);
    MonthIndexOrder(r[i], r[j]);
  }

  lemma TwelveMonthsLater(k: int)
    ensures MonthStart(k + 12) == Date(MonthStart(k).year + 1, MonthStart(k).month, 1)
  {
    assert (k + 12) / 12 == k / 12 + 1 && (k + 12) % 12 == k % 12;
  }

  /** Twelve months after a first of the month inside `[start, end]` is past `end`, when the range spans at most 365 days. */
  lemma YearAfterIsBeyond(start: Date, end: Date, first: Date, last: Date)
    requires ValidDate(start) && ValidDate(end) && ValidDate(first) && ValidDate(last)
    requires DaysBetween(start, end) + 1 <= 365
    requires first.day == 1 && last == Date(first.year + 1, first.month, 1)
    requires !Before(first, start)
    ensures Before(end, last)
  {
    YearLater(first.year, first.month);
    BeforeIsOrdinalLess(first, start);
    BeforeIsOrdinalLess(end, last);
  }

  /** No two first-of-month dates twelve months apart fit in a range of at most 365 days. */
  lemma MonthStartsInAYear(start: Date, end: Date)
    requires ValidDate(start) && ValidDate(end)
    requires DaysBetween(start, end) + 1 <= 365
    ensures |MonthStarts(start, end)| <= 12
  {
    var r := MonthStarts(start, end);
    if |r| > 12 {
      var lo := MonthIndex(start) + (if start.day == 1 then 0 else 1);
      TwelveMonthsLater(lo);
      MonthStartsSound(start, end, 0);
      MonthStartsSound(start, end, 12);
      YearAfterIsBeyond(start, end, r[0], r[12]);
      assert false;
    }
  }

  /** pandas' nanosecond `Timestamp` holds midnights from 1677-09-22 to 2262-04-11 only. */
  const TimestampFirstDay := Date(1677, 9, 22)
  const TimestampLastDay := Date(2262, 4, 11)

  predicate InTimestampRange(d: Date) {
    !Before(d, TimestampFirstDay) && !Before(TimestampLastDay, d)
  }

  // ---------------------------------------------------------------------------
  // Text forms
  // ---------------------------------------------------------------------------

  predicate IsDigit(c: char) {
    '0' <= c <= '9'
  }

  function DigitValue(c: char): int
    requires IsDigit(c)
  {
    c as int - '0' as int
  }

  function DigitChar(n: int): (c: char)
    requires 0 <= n <= 9
    ensures IsDigit(c) && DigitValue(c) == n
  {
    ('0' as int + n) as char
  }

  function Pad2(n: int): string
    requires 0 <= n <= 99
  {
    [DigitChar(n / 10), DigitChar(n % 10)]
  }

  function Pad4(n: int): string
    requires 0 <= n <= 9999
  {
    [DigitChar(n / 1000), DigitChar(n / 100 % 10), DigitChar(n / 10 % 10), DigitChar(n % 10)]
  }

  /** `date.isoformat()`; also `strftime("%Y-%m-%d")` for four-digit years. */
  function IsoFormat(d: Date): string
    requires ValidDate(d)
  {
    Pad4(d.year) + "-" + Pad2(d.month) + "-" + Pad2(d.day)
  }

  /** The `%Y` field: exactly four digits. */
  function YearField(t: string): Option<int> {
    if |t| == 4 && IsDigit(t[0]) && IsDigit(t[1]) && IsDigit(t[2]) && IsDigit(t[3]) then
      Some(1000 * DigitValue(t[0]) + 100 * DigitValue(t[1]) + 10 * DigitValue(t[2]) + DigitValue(t[3]))
    else None
  }

  /** The `%m` field, pattern `1[0-2]|0[1-9]|[1-9]`. */
  function MonthField(t: string): Option<int> {
    if |t| == 1 && '1' <= t[0] <= '9' then Some(DigitValue(t[0]))
    else if |t| == 2 && t[0] == '1' && '0' <= t[1] <= '2' then Some(10 + DigitValue(t[1]))
    else if |t| == 2 && t[0] == '0' && '1' <= t[1] <= '9' then Some(DigitValue(t[1]))
    else None
  }

  /** The `%d` field, pattern `3[01]|[12]\d|0[1-9]|[1-9]| [1-9]`. */
  function DayField(t: string): Option<int> {
    if |t| == 1 && '1' <= t[0] <= '9' then Some(DigitValue(t[0]))
    else if |t| == 2 && t[0] == ' ' && '1' <= t[1] <= '9' then Some(DigitValue(t[1]))
    else if |t| == 2 && t[0] == '3' && '0' <= t[1] <= '1' then Some(30 + DigitValue(t[1]))
    else if |t| == 2 && '1' <= t[0] <= '2' && IsDigit(t[1]) then Some(10 * DigitValue(t[0]) + DigitValue(t[1]))
    else if |t| == 2 && t[0] == '0' && '1' <= t[1] <= '9' then Some(DigitValue(t[1]))
    else None
  }

  /**
   * `datetime.strptime(s, "%Y-%m-%d").date()`, None where it raises ValueError. The three
   * fields are split at the two dashes (no field pattern contains one); the whole text must
   * be consumed, and the date must exist.
   */
  function ParseDate(s: string): (r: Option<Date>)
    ensures r.Some? ==> ValidDate(r.value)
  {
    if |s| < 8 || s[4] != '-' then None
    else
      var monthEnd := if s[6] == '-' then 6 else 7;
      if s[monthEnd] != '-' then None
      else
        match (YearField(s[..4]), MonthField(s[5..monthEnd]), DayField(s[monthEnd + 1..]))
        case (Some(y), Some(m), Some(d)) => if ValidDate(Date(y, m, d)) then Some(Date(y, m, d)) else None
        case _ => None
  }

  /** The ways `strptime` lets a month be written: zero-padded, or one digit. */
  function MonthSpellings(m: int): set<string>
    requires 1 <= m <= 12
  {
    {Pad2(m)} + (if m <= 9 then {[DigitChar(m)]} else {})
  }

  /** The ways `strptime` lets a day be written: zero-padded, one digit, or space and digit. */
  function DaySpellings(d: int): set<string>
    requires 1 <= d <= 31
  {
    {Pad2(d)} + (if d <= 9 then {[DigitChar(d)], [' ', DigitChar(d)]} else {})
  }

  /** `s` writes the date `d` as four-digit year, month and day separated by dashes. */
  ghost predicate SpelledAs(s: string, d: Date)
    requires ValidDate(d)
  {
    exists mt, dt :: mt in MonthSpellings(d.month) && dt in DaySpellings(d.day)
      && s == Pad4(d.year) + "-" + mt + "-" + dt
  }

  lemma YearFieldInverse(t: string)
    requires YearField(t).Some?
    ensures 0 <= YearField(t).value <= 9999 && t == Pad4(YearField(t).value)
  {
    var a, b, c, e := DigitValue(t[0]), DigitValue(t[1]), DigitValue(t[2]), DigitValue(t[3]);
    var v := 1000 * a + 100 * b + 10 * c + e;
    assert v == YearField(t).value;
    DivMod(v, 1000, a, 100 * b + 10 * c + e);
    DivMod(v, 100, 10 * a + b, 10 * c + e);
    DivMod(10 * a + b, 10, a, b);
    DivMod(v, 10, 100 * a + 10 * b + c, e);
    DivMod(100 * a + 10 * b + c, 10, 10 * a + b, c);
    assert DigitChar(a) == t[0] && DigitChar(b) == t[1] && DigitChar(c) == t[2] && DigitChar(e) == t[3];
    assert Pad4(v) == [t[0], t[1], t[2], t[3]];
  }

  lemma YearFieldOfPad4(y: int)
    requires 0 <= y <= 9999
    ensures YearField(Pad4(y)) == Some(y)
  {
    var a, b, c, e := y / 1000, y / 100 % 10, y / 10 % 10, y % 10;
    FourDigits(y);
    var t := Pad4(y);
    assert t == [DigitChar(a), DigitChar(b), DigitChar(c), DigitChar(e)];
    assert DigitValue(t[0]) == a && DigitValue(t[1]) == b && DigitValue(t[2]) == c && DigitValue(t[3]) == e;
  }

  /** A year below 10000 is the sum of its four decimal digits times their place values. */
  lemma FourDigits(y: int)
    requires 0 <= y <= 9999
    ensures 0 <= y / 1000 <= 9
    ensures 1000 * (y / 1000) + 100 * (y / 100 % 10) + 10 * (y / 10 % 10) + y % 10 == y
  {
    var q1, e := y / 10, y % 10;
    var q2, c := q1 / 10, q1 % 10;
    var a, b := q2 / 10, q2 % 10;
    DivMod(y, 100, q2, 10 * c + e);
    DivMod(q2, 10, a, b);
    DivMod(y, 1000, a, 100 * b + 10 * c + e);
  }

  /** Division by a place value, stated for the quotient and remainder at hand. */
  lemma DivMod(x: int, d: int, q: int, r: int)
    requires d == 4 || d == 10 || d == 100 || d == 400 || d == 1000
    requires x == d * q + r && 0 <= r < d
    ensures x / d == q && x % d == r
  {
    if d == 4 {
      assert x == 4 * q + r;
    } else if d == 10 {
      assert x == 10 * q + r;
    } else if d == 100 {
      assert x == 100 * q + r;
    } else if d == 400 {
      assert x == 400 * q + r;
    } else {
      assert x == 1000 * q + r;
    }
  }

  lemma Pad2Small(n: int)
    requires 0 <= n <= 99
    ensures Pad2(n) == [DigitChar(n / 10), DigitChar(n % 10)]
    ensures n <= 9 ==> Pad2(n) == ['0', DigitChar(n)]
    ensures 10 <= n <= 19 ==> Pad2(n) == ['1', DigitChar(n - 10)]
    ensures 20 <= n <= 29 ==> Pad2(n) == ['2', DigitChar(n - 20)]
    ensures 30 <= n <= 39 ==> Pad2(n) == ['3', DigitChar(n - 30)]
  {
  }

  lemma CharOfDigit(c: char)
    requires IsDigit(c)
    ensures DigitChar(DigitValue(c)) == c
  {
  }

  lemma MonthFieldExactly(t: string, m: int)
    requires 1 <= m <= 12
    ensures MonthField(t) == Some(m) <==> t in MonthSpellings(m)
  {
    Pad2Small(m);
    if MonthField(t) == Some(m) {
      if |t| == 1 {
        CharOfDigit(t[0]);
        assert t == [DigitChar(m)];
      } else {
        CharOfDigit(t[1]);
        assert t == [t[0], t[1]];
      }
    }
  }

  lemma DayFieldExactly(t: string, d: int)
    requires 1 <= d <= 31
    ensures DayField(t) == Some(d) <==> t in DaySpellings(d)
  {
    Pad2Small(d);
    if DayField(t) == Some(d) {
      if |t| == 1 {
        CharOfDigit(t[0]);
        assert t == [DigitChar(d)];
      } else {
        CharOfDigit(t[1]);
        if '1' <= t[0] <= '2' {
          assert d == 10 * DigitValue(t[0]) + DigitValue(t[1]);
        }
        assert t == [t[0], t[1]];
      }
    }
  }

  /** `strptime(s, "%Y-%m-%d")` yields `d` exactly when `d` exists and `s` is one of its spellings. */
  lemma ParseDateExactly(s: string, d: Date)
    ensures ParseDate(s) == Some(d) <==> ValidDate(d) && SpelledAs(s, d)
  {
    if ParseDate(s) == Some(d) {
      ParsedDateIsSpelled(s, d);
    }
    if ValidDate(d) && SpelledAs(s, d) {
      SpelledDateParses(s, d);
    }
  }

  /** What `strptime` accepts is a spelling of the date it returns. */
  lemma ParsedDateIsSpelled(s: string, d: Date)
    requires ParseDate(s) == Some(d)
    ensures ValidDate(d) && SpelledAs(s, d)
  {
    var me := if s[6] == '-' then 6 else 7;
    var yt, mt, dt := s[..4], s[5..me], s[me + 1..];
    YearFieldInverse(yt);
    MonthFieldExactly(mt, d.month);
    DayFieldExactly(dt, d.day);
    assert s == yt + "-" + mt + "-" + dt;
    assert mt in MonthSpellings(d.month) && dt in DaySpellings(d.day) && s == Pad4(d.year) + "-" + mt + "-" + dt;
  }

  /** Every spelling of an existing date is accepted as that date. */
  lemma SpelledDateParses(s: string, d: Date)
    requires ValidDate(d) && SpelledAs(s, d)
    ensures ParseDate(s) == Some(d)
  {
    var mt, dt :| mt in MonthSpellings(d.month) && dt in DaySpellings(d.day)
      && s == Pad4(d.year) + "-" + mt + "-" + dt;
    SpellingSplits(Pad4(d.year), mt, dt);
    MonthFieldExactly(mt, d.month);
    DayFieldExactly(dt, d.day);
    YearFieldOfPad4(d.year);
    assert |mt| == 2 ==> IsDigit(mt[1]);
  }

  /** The pieces of `year-month-day` are found again at the positions `ParseDate` reads. */
  lemma SpellingSplits(y: string, mt: string, dt: string)
    requires |y| == 4 && 1 <= |mt| <= 2 && |dt| >= 1
    ensures var s, me := y + "-" + mt + "-" + dt, 5 + |mt|;
      && |s| == me + 1 + |dt| && s[4] == '-' && s[me] == '-'
      && s[..4] == y && s[5..me] == mt && s[me + 1..] == dt
      && (|mt| == 2 ==> s[6] == mt[1])
  {
    var s, me := y + "-" + mt + "-" + dt, 5 + |mt|;
    assert s == y + ("-" + (mt + ("-" + dt)));
    assert s[..4] == y;
    assert s[5..me] == mt;
    assert s[me + 1..] == dt;
  }

  /** Reading back what `isoformat()` wrote gives the same date. */
  lemma ParseIsoFormat(d: Date)
    requires ValidDate(d)
    ensures ParseDate(IsoFormat(d)) == Some(d)
  {
    assert Pad2(d.month) in MonthSpellings(d.month);
    assert Pad2(d.day) in DaySpellings(d.day);
    ParseDateExactly(IsoFormat(d), d);
  }

  /** Two days of January 2024 in ISO form. */
  lemma JanuaryIso()
    ensures IsoFormat(Date(2024, 1, 1)) == "2024-01-01"
    ensures IsoFormat(Date(2024, 1, 31)) == "2024-01-31"
  {
    assert 2024 / 1000 == 2 && 2024 / 100 % 10 == 0 && 2024 / 10 % 10 == 2 && 2024 % 10 == 4;
    assert Pad4(2024) == "2024";
    assert Pad2(1) == "01";
    assert 31 / 10 == 3 && 31 % 10 == 1;
    assert Pad2(31) == "31";
  }

  /** Leap days, unpadded fields, a padded day and the out-of-range cases. */
  lemma ParseDateExamples()
    ensures ParseDate("2024-02-29") == Some(Date(2024, 2, 29))
    ensures ParseDate("2023-02-29") == None
    ensures ParseDate("1900-02-29") == None
    ensures ParseDate("2000-02-29") == Some(Date(2000, 2, 29))
    ensures ParseDate("2024-1-5") == Some(Date(2024, 1, 5))
    ensures ParseDate("2024-01- 5") == Some(Date(2024, 1, 5))
    ensures ParseDate("0000-01-01") == None
    ensures ParseDate("2024-13-01") == None
    ensures ParseDate("2024-01-32") == None
    ensures ParseDate("24-01-01") == None
    ensures ParseDate("2024-01-01T00") == None
  {
    LeapDaysParse();
    LooseFieldsParse();
    OutOfRangeFieldsFail();
  }

  /** February 29 exists in years divisible by 4, except centuries not divisible by 400. */
  lemma LeapDaysParse()
    ensures ParseDate("2024-02-29") == Some(Date(2024, 2, 29))
    ensures ParseDate("2023-02-29") == None
    ensures ParseDate("1900-02-29") == None
    ensures ParseDate("2000-02-29") == Some(Date(2000, 2, 29))
  {
    PaddedFields("2024-02-29", 2024, 2, 29);
    PaddedFields("2023-02-29", 2023, 2, 29);
    PaddedFields("1900-02-29", 1900, 2, 29);
    PaddedFields("2000-02-29", 2000, 2, 29);
    assert IsLeapYear(2024) && !IsLeapYear(2023) && !IsLeapYear(1900) && IsLeapYear(2000);
  }

  /** A text of the form `YYYY-MM-DD` is read field by field. */
  lemma PaddedFields(s: string, y: int, m: int, d: int)
    requires |s| == 10 && s[4] == '-' && s[7] == '-'
    requires YearField(s[..4]) == Some(y) && MonthField(s[5..7]) == Some(m) && DayField(s[8..]) == Some(d)
    ensures ParseDate(s) == if ValidDate(Date(y, m, d)) then Some(Date(y, m, d)) else None
  {
  }

  /** `%m` and `%d` accept one digit, and `%d` a space before a single digit. */
  lemma LooseFieldsParse()
    ensures ParseDate("2024-1-5") == Some(Date(2024, 1, 5))
    ensures ParseDate("2024-01- 5") == Some(Date(2024, 1, 5))
  {
  }

  /** Year 0, month 13, day 32, a two-digit year and trailing text are refused. */
  lemma OutOfRangeFieldsFail()
    ensures ParseDate("0000-01-01") == None
    ensures ParseDate("2024-13-01") == None
    ensures ParseDate("2024-01-32") == None
    ensures ParseDate("24-01-01") == None
    ensures ParseDate("2024-01-01T00") == None
  {
  }

  /** A January range yields one point: the month starts, not the days, are enumerated. */
  lemma JanuaryHasOneMonthStart()
    ensures MonthStarts(Date(2024, 1, 1), Date(2024, 1, 31)) == [Date(2024, 1, 1)]
    ensures MonthStarts(Date(2024, 1, 2), Date(2024, 1, 31)) == []
    ensures MonthStarts(Date(2024, 1, 15), Date(2024, 3, 1)) == [Date(2024, 2, 1), Date(2024, 3, 1)]
  {
    var jan := 2024 * 12;
    assert MonthStart(jan) == Date(2024, 1, 1);
    assert MonthStart(jan + 1) == Date(2024, 2, 1);
    assert MonthStart(jan + 2) == Date(2024, 3, 1);
    var a := MonthStarts(Date(2024, 1, 1), Date(2024, 1, 31));
    assert |a| == 1 && a[0] == MonthStart(jan);
    var c := MonthStarts(Date(2024, 1, 15), Date(2024, 3, 1));
    assert |c| == 2 && c[0] == MonthStart(jan + 1) && c[1] == MonthStart(jan + 2);
  }
}
