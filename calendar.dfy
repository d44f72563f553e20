/** Calendar dates as day numbers, replacing the date library's `NaiveDate`.

    A date is the number of days since the common era began, counted as the
    date library counts them: 1 January of year 1 (proleptic Gregorian) is
    day 1, and it was a Monday. Adding `n` days is adding `n`; the difference
    of two dates is their difference in days. */
module Calendar {
  import opened Wrappers
  import Text

  type Date = int

  /** Days from Monday: 0 for Monday through 6 for Sunday. */
  function WeekdayIndex(d: Date): (w: nat)
    ensures w < 7
  {
    (d + 6) % 7
  }

  /** The weekday advances by one every day, wrapping from Sunday to Monday. */
  lemma WeekdayIndexNext(d: Date)
    ensures WeekdayIndex(d + 1) == (WeekdayIndex(d) + 1) % 7
  {
  }

  /** The Monday that starts the week containing `d`. */
  function WeekStart(d: Date): (m: Date)
    ensures WeekdayIndex(m) == 0
    ensures m <= d < m + 7
  {
    d - WeekdayIndex(d)
  }

  predicate IsLeapYear(y: nat) {
    y % 4 == 0 && (y % 100 != 0 || y % 400 == 0)
  }

  function DaysInMonth(y: nat, m: nat): (n: nat)
    requires 1 <= m <= 12
    ensures 28 <= n <= 31
  {
    if m == 2 then (if IsLeapYear(y) then 29 else 28)
    else if m == 4 || m == 6 || m == 9 || m == 11 then 30
    else 31
  }

  predicate IsValidYmd(y: nat, m: nat, d: nat) {
    y <= MAX_YEAR && 1 <= m <= 12 && 1 <= d <= DaysInMonth(y, m)
  }

  /** The largest year the date library represents. */
  const MAX_YEAR: nat := 262143

  /** Days before 1 January of year `y`, counted from day 0 (31 December of
      year 0). */
  function DaysBeforeYear(y: nat): int {
    365 * (y - 1) + (y - 1) / 4 - (y - 1) / 100 + (y - 1) / 400
  }

  function DaysBeforeMonth(y: nat, m: nat): nat
    requires 1 <= m <= 12
  {
    var common := [0, 31, 59, 90, 120, 151, 181, 212, 243, 273, 304, 334][m - 1];
    common + (if m > 2 && IsLeapYear(y) then 1 else 0)
  }

  /** The day number of a valid year/month/day. */
  function FromYmd(y: nat, m: nat, d: nat): Date
    requires IsValidYmd(y, m, d)
  {
    DaysBeforeYear(y) + DaysBeforeMonth(y, m) + d
  }

  /** A year is as long as its months together. */
  lemma {:induction false} YearLength(y: nat)
    ensures DaysBeforeYear(y + 1) - DaysBeforeYear(y) == if IsLeapYear(y) then 366 else 365
  {
    var a := y - 1;
    var d4, d100, d400 := y / 4 - a / 4, y / 100 - a / 100, y / 400 - a / 400;
    assert d4 == (if y % 4 == 0 then 1 else 0) by { QuotientStep4(a); }
    assert d100 == (if y % 100 == 0 then 1 else 0) by { QuotientStep100(a); }
    assert d400 == (if y % 400 == 0 then 1 else 0) by { QuotientStep400(a); }
    LeapCorrection(y);
    assert DaysBeforeYear(y + 1) - DaysBeforeYear(y) == 365 + d4 - d100 + d400;
  }

  /** The leap-day corrections of the three rules add up to one exactly in
      a leap year. */
  lemma LeapCorrection(y: nat)
    ensures (if y % 4 == 0 then 1 else 0) - (if y % 100 == 0 then 1 else 0) + (if y % 400 == 0 then 1 else 0)
            == if IsLeapYear(y) then 1 else 0
  {
    if y % 100 == 0 {
      CenturyIsLeapCandidate(y);
    }
    if y % 400 == 0 {
      QuadricentennialIsCentury(y);
    }
  }

  lemma CenturyIsLeapCandidate(y: nat)
    requires y % 100 == 0
    ensures y % 4 == 0
  {
    var k := 25 * (y / 100);
    assert y == 4 * k;
  }

  lemma QuadricentennialIsCentury(y: nat)
    requires y % 400 == 0
    ensures y % 100 == 0
  {
    var k := 4 * (y / 400);
    assert y == 100 * k;
  }

  /** The quotients by 4, 100 and 400 grow by one exactly when the
      dividend reaches a multiple. */
  lemma QuotientStep4(a: int)
    ensures (a + 1) / 4 == a / 4 + (if (a + 1) % 4 == 0 then 1 else 0)
  {
    assert a == 4 * (a / 4) + a % 4;
  }

  lemma QuotientStep100(a: int)
    ensures (a + 1) / 100 == a / 100 + (if (a + 1) % 100 == 0 then 1 else 0)
  {
    assert a == 100 * (a / 100) + a % 100;
  }

  lemma QuotientStep400(a: int)
    ensures (a + 1) / 400 == a / 400 + (if (a + 1) % 400 == 0 then 1 else 0)
  {
    assert a == 400 * (a / 400) + a % 400;
  }

  /** Day numbers are consecutive across month and year ends: the day after
      the last of a month is the first of the next month (or year). */
  lemma NextDayAcrossBoundaries(y: nat, m: nat)
    requires y < MAX_YEAR && 1 <= m <= 12
    ensures m < 12 ==> FromYmd(y, m, DaysInMonth(y, m)) + 1 == FromYmd(y, m + 1, 1)
    ensures m == 12 ==> FromYmd(y, m, 31) + 1 == FromYmd(y + 1, 1, 1)
  {
    if m == 12 {
      YearLength(y);
    }
  }

  /** Position of the first `c` in `s`, or `|s|` when there is none. */
  function IndexOf(s: string, c: char): (i: nat)
    ensures i <= |s|
    ensures i < |s| ==> s[i] == c
    ensures forall j :: 0 <= j < i ==> s[j] != c
  {
    if s == [] then 0 else if s[0] == c then 0 else 1 + IndexOf(s[1..], c)
  }

  /** The parts of `s` between slashes. */
  function SplitSlash(s: string): (parts: seq<string>)
    ensures |parts| >= 1
    ensures forall k :: 0 <= k < |parts| ==> '/' !in parts[k]
    ensures '/' !in s ==> parts == [s]
    decreases |s|
  {
    var i := IndexOf(s, '/');
    if i == |s| then [s] else [s[..i]] + SplitSlash(s[i + 1..])
  }

  predicate IsNumberField(s: string, maxDigits: nat) {
    1 <= |s| <= maxDigits && Text.AllDigits(s)
  }

  /** Parsing `day/month/year` (the `%d/%m/%Y` pattern): one or two digits
      of day, one or two digits of month, one to four digits of year, naming
      a day that exists in the Gregorian calendar. */
  function ParseDayMonthYear(s: string): (r: Option<Date>)
    ensures r.Some? ==> exists y: nat, m: nat, d: nat {:trigger IsValidYmd(y, m, d)} ::
                          IsValidYmd(y, m, d) && r.value == FromYmd(y, m, d)
    ensures '/' !in s ==> r.None?
    ensures r.Some? ==> var parts := SplitSlash(s);
      && |parts| == 3 && IsNumberField(parts[0], 2) && IsNumberField(parts[1], 2) && IsNumberField(parts[2], 4)
      && IsValidYmd(Text.DigitsValue(parts[2]), Text.DigitsValue(parts[1]), Text.DigitsValue(parts[0]))
      && r.value == FromYmd(Text.DigitsValue(parts[2]), Text.DigitsValue(parts[1]), Text.DigitsValue(parts[0]))
    ensures r.None? ==> var parts := SplitSlash(s);
      || |parts| != 3 || !IsNumberField(parts[0], 2) || !IsNumberField(parts[1], 2) || !IsNumberField(parts[2], 4)
      || !IsValidYmd(Text.DigitsValue(parts[2]), Text.DigitsValue(parts[1]), Text.DigitsValue(parts[0]))
  {
    var parts := SplitSlash(s);
    if |parts| == 3 && IsNumberField(parts[0], 2) && IsNumberField(parts[1], 2) && IsNumberField(parts[2], 4)
    then
      var d, m, y := Text.DigitsValue(parts[0]), Text.DigitsValue(parts[1]), Text.DigitsValue(parts[2]);
      if IsValidYmd(y, m, d) then Some(FromYmd(y, m, d)) else None
    else None
  }

  /** The date the program's tests use as "today": Wednesday 5 January 2022. */
  const WED_5_JAN_2022: Date := 738160

  lemma TestDate()
    ensures FromYmd(2022, 1, 5) == WED_5_JAN_2022
    ensures WeekdayIndex(WED_5_JAN_2022) == 2
  {
  }

  lemma {:induction false} SplitSlashCons(a: string, rest: string)
    requires '/' !in a
    ensures SplitSlash(a + "/" + rest) == [a] + SplitSlash(rest)
  {
    var s := a + "/" + rest;
    var i := IndexOf(s, '/');
    assert s[|a|] == '/';
    assert i == |a| by {
      assert forall j :: 0 <= j < |a| ==> s[j] == a[j] && s[j] != '/';
    }
    assert s[..i] == a;
    assert s[i + 1..] == rest;
  }

  /** `n` written with at least `width` digits, zero-padded on the left. */
  function ZeroPadded(n: nat, width: nat): (r: string)
    ensures Text.AllDigits(r)
    ensures |r| == if |Text.NatToString(n)| < width then width else |Text.NatToString(n)|
  {
    var digits := Text.NatToString(n);
    (if |digits| < width then Text.Repeat('0', width - |digits|) else "") + digits
  }

  lemma {:induction false} LeadingZerosValue(k: nat, s: string)
    requires Text.AllDigits(s)
    ensures Text.AllDigits(Text.Repeat('0', k) + s)
    ensures Text.DigitsValue(Text.Repeat('0', k) + s) == Text.DigitsValue(s)
    decreases |s|
  {
    var z := Text.Repeat('0', k);
    if s == [] {
      assert z + s == z;
      assert Text.DigitsValue(z) == 0 by { AllZerosValue(k); }
    } else {
      var p := s[..|s| - 1];
      assert (z + s)[..|z + s| - 1] == z + p;
      LeadingZerosValue(k, p);
    }
  }

  lemma {:induction false} AllZerosValue(k: nat)
    ensures Text.DigitsValue(Text.Repeat('0', k)) == 0
  {
    if k > 0 {
      assert Text.Repeat('0', k)[..k - 1] == Text.Repeat('0', k - 1);
      AllZerosValue(k - 1);
    }
  }

  lemma ZeroPaddedValue(n: nat, width: nat)
    ensures Text.DigitsValue(ZeroPadded(n, width)) == n
  {
    var digits := Text.NatToString(n);
    Text.DigitsValueOfNatToString(n);
    if |digits| < width {
      LeadingZerosValue(width - |digits|, digits);
    } else {
      assert ZeroPadded(n, width) == digits;
    }
  }

  lemma FewDigits(n: nat)
    ensures n < 100 ==> Text.NumDigits(n) <= 2
    ensures n < 10000 ==> Text.NumDigits(n) <= 4
  {
    if n >= 10 {
      assert Text.NumDigits(n) == 1 + Text.NumDigits(n / 10);
      if n / 10 >= 10 {
        assert Text.NumDigits(n / 10) == 1 + Text.NumDigits(n / 100);
        if n / 100 >= 10 {
          assert Text.NumDigits(n / 100) == 1 + Text.NumDigits(n / 1000);
        }
      }
    }
  }

  /** A date written as the pattern `%d/%m/%Y` prints it. */
  function FormatDayMonthYear(y: nat, m: nat, d: nat): string {
    ZeroPadded(d, 2) + "/" + ZeroPadded(m, 2) + "/" + ZeroPadded(y, 4)
  }

  lemma PaddedField(n: nat, width: nat)
    requires Text.NumDigits(n) <= width
    ensures IsNumberField(ZeroPadded(n, width), width) && |ZeroPadded(n, width)| == width
    ensures '/' !in ZeroPadded(n, width)
  {
    Text.NatToStringLength(n);
    var z := ZeroPadded(n, width);
    assert forall i :: 0 <= i < |z| ==> Text.IsDigit(z[i]);
  }

  lemma SplitFormatted(y: nat, m: nat, d: nat)
    requires y <= 9999 && m < 100 && d < 100
    ensures var parts := SplitSlash(FormatDayMonthYear(y, m, d));
      && parts == [ZeroPadded(d, 2), ZeroPadded(m, 2), ZeroPadded(y, 4)]
      && IsNumberField(parts[0], 2) && IsNumberField(parts[1], 2) && IsNumberField(parts[2], 4)
  {
    var ds, ms, ys := ZeroPadded(d, 2), ZeroPadded(m, 2), ZeroPadded(y, 4);
    FewDigits(d);
    FewDigits(m);
    FewDigits(y);
    PaddedField(d, 2);
    PaddedField(m, 2);
    PaddedField(y, 4);
    assert ds + "/" + ms + "/" + ys == ds + "/" + (ms + "/" + ys);
    SplitSlashCons(ds, ms + "/" + ys);
    SplitSlashCons(ms, ys);
  }

  /** Every valid date with a four-digit year, written day/month/year with
      zero padding, parses back to its day number. */
  lemma ParseFormatDayMonthYear(y: nat, m: nat, d: nat)
    requires IsValidYmd(y, m, d) && y <= 9999
    ensures ParseDayMonthYear(FormatDayMonthYear(y, m, d)) == Some(FromYmd(y, m, d))
  {
    SplitFormatted(y, m, d);
    ZeroPaddedValue(d, 2);
    ZeroPaddedValue(m, 2);
    ZeroPaddedValue(y, 4);
  }

  /** Distinct valid dates have distinct day numbers, so a parsed day
      number determines the day, month and year that were written. */
  lemma FromYmdInjective(y1: nat, m1: nat, d1: nat, y2: nat, m2: nat, d2: nat)
    requires IsValidYmd(y1, m1, d1) && IsValidYmd(y2, m2, d2)
    requires FromYmd(y1, m1, d1) == FromYmd(y2, m2, d2)
    ensures y1 == y2 && m1 == m2 && d1 == d2
  {
    if y1 < y2 {
      FromYmdBefore(y1, m1, d1, y2, m2, d2);
    } else if y2 < y1 {
      FromYmdBefore(y2, m2, d2, y1, m1, d1);
    } else if m1 < m2 {
      MonthsOrdered(y1, m1, m2);
    } else if m2 < m1 {
      MonthsOrdered(y1, m2, m1);
    }
  }

  /** Every day of an earlier year comes before every day of a later one. */
  lemma FromYmdBefore(y1: nat, m1: nat, d1: nat, y2: nat, m2: nat, d2: nat)
    requires IsValidYmd(y1, m1, d1) && IsValidYmd(y2, m2, d2) && y1 < y2
    ensures FromYmd(y1, m1, d1) < FromYmd(y2, m2, d2)
  {
    DayOfYearBound(y1, m1, d1);
    YearLength(y1);
    YearsOrdered(y1 + 1, y2);
  }

  /** A day lies within its year: its offset is at most the year's length. */
  lemma DayOfYearBound(y: nat, m: nat, d: nat)
    requires IsValidYmd(y, m, d)
    ensures DaysBeforeMonth(y, m) + d <= if IsLeapYear(y) then 366 else 365
  {
    if m < 12 {
      MonthsOrdered(y, m, 12);
    }
  }

  /** Years start in increasing order. */
  lemma {:induction false} YearsOrdered(a: nat, b: nat)
    requires a <= b
    ensures DaysBeforeYear(a) <= DaysBeforeYear(b)
    decreases b - a
  {
    if a < b {
      YearLength(a);
      YearsOrdered(a + 1, b);
    }
  }

  /** A month ends no later than any later month begins. */
  lemma {:induction false} MonthsOrdered(y: nat, m1: nat, m2: nat)
    requires 1 <= m1 < m2 <= 12
    ensures DaysBeforeMonth(y, m1) + DaysInMonth(y, m1) <= DaysBeforeMonth(y, m2)
    decreases m2 - m1
  {
    if m1 + 1 < m2 {
      MonthsOrdered(y, m1 + 1, m2);
    }
  }

  /** The program's parse test: "05/01/2022" is Wednesday 5 January 2022. */
  lemma TestParseDayMonthYear()
    ensures ParseDayMonthYear("05/01/2022") == Some(WED_5_JAN_2022)
  {
    assert Text.NatToString(2022) == "2022";
    assert ZeroPadded(5, 2) == "05";
    assert ZeroPadded(1, 2) == "01";
    assert FormatDayMonthYear(2022, 1, 5) == "05/01/2022";
    ParseFormatDayMonthYear(2022, 1, 5);
    TestDate();
  }
}
