/** The proleptic Gregorian calendar behind the counter bucket labels.

    An instant is a number of seconds since 0001-01-01T00:00:00 UTC; every UTC day has
    86400 of them. */
module Calendar {

  const HOUR := 3600
  const DAY := 86400

  datatype Date = Date(year: nat, month: nat, day: nat)

  predicate IsLeap(y: nat) {
    y % 4 == 0 && (y % 100 != 0 || y % 400 == 0)
  }

  function DaysInYear(y: nat): nat {
    if IsLeap(y) then 366 else 365
  }

  function DaysInMonth(y: nat, m: nat): nat {
    if m == 2 then (if IsLeap(y) then 29 else 28)
    else if m == 4 || m == 6 || m == 9 || m == 11 then 30
    else 31
  }

  function DaysBeforeYear(y: nat): nat {
    if y <= 1 then 0 else DaysBeforeYear(y - 1) + DaysInYear(y - 1)
  }

  function DaysBeforeMonth(y: nat, m: nat): nat {
    if m <= 1 then 0 else DaysBeforeMonth(y, m - 1) + DaysInMonth(y, m - 1)
  }

  predicate ValidDate(d: Date) {
    1 <= d.year && 1 <= d.month <= 12 && 1 <= d.day <= DaysInMonth(d.year, d.month)
  }

  /** Days from 0001-01-01 to `d`. */
  function DayNumber(d: Date): int {
    DaysBeforeYear(d.year) + DaysBeforeMonth(d.year, d.month) + d.day - 1
  }

  /** The year that holds the `n`-th day counted from the start of year `y`, and the
      day's offset in it. */
  function YearFrom(y: nat, n: nat): (nat, nat)
    decreases n
  {
    if n < DaysInYear(y) then (y, n) else YearFrom(y + 1, n - DaysInYear(y))
  }

  function MonthFrom(y: nat, m: nat, n: nat): (nat, nat)
    decreases n
  {
    if n < DaysInMonth(y, m) then (m, n) else MonthFrom(y, m + 1, n - DaysInMonth(y, m))
  }

  /** The date of the `n`-th day after 0001-01-01. */
  function DateOf(n: nat): Date {
    var (y, dayOfYear) := YearFrom(1, n);
    var (m, offset) := MonthFrom(y, 1, dayOfYear);
    Date(y, m, offset + 1)
  }

  lemma {:induction false} YearFromSplits(y: nat, n: nat)
    requires 1 <= y
    ensures var (y', d) := YearFrom(y, n);
            y <= y' && d < DaysInYear(y') && DaysBeforeYear(y) + n == DaysBeforeYear(y') + d
    decreases n
  {
    if n >= DaysInYear(y) {
      YearFromSplits(y + 1, n - DaysInYear(y));
    }
  }

  lemma {:induction false} YearLength(y: nat)
    ensures DaysBeforeMonth(y, 13) == DaysInYear(y)
  {
    assert DaysBeforeMonth(y, 2) == 31;
    assert DaysBeforeMonth(y, 4) == 62 + DaysInMonth(y, 2);
    assert DaysBeforeMonth(y, 6) == DaysBeforeMonth(y, 4) + 61;
    assert DaysBeforeMonth(y, 8) == DaysBeforeMonth(y, 6) + 61;
    assert DaysBeforeMonth(y, 10) == DaysBeforeMonth(y, 8) + 61;
    assert DaysBeforeMonth(y, 12) == DaysBeforeMonth(y, 10) + 61;
  }

  lemma {:induction false} DaysBeforeMonthMonotonic(y: nat, m: nat, m': nat)
    requires 1 <= m <= m'
    ensures DaysBeforeMonth(y, m) <= DaysBeforeMonth(y, m')
    decreases m' - m
  {
    if m < m' {
      DaysBeforeMonthMonotonic(y, m, m' - 1);
    }
  }

  lemma {:induction false} MonthFromSplits(y: nat, m: nat, n: nat)
    requires 1 <= m && DaysBeforeMonth(y, m) + n < DaysInYear(y)
    ensures var (m', d) := MonthFrom(y, m, n);
            m <= m' <= 12 && d < DaysInMonth(y, m')
            && DaysBeforeMonth(y, m) + n == DaysBeforeMonth(y, m') + d
    decreases n
  {
    YearLength(y);
    if m >= 13 {
      DaysBeforeMonthMonotonic(y, 13, m);
      assert false;
    } else if n >= DaysInMonth(y, m) {
      MonthFromSplits(y, m + 1, n - DaysInMonth(y, m));
    }
  }

  /** Naming a day and counting to the named date are inverse. */
  lemma {:induction false} DateOfInverse(n: nat)
    ensures ValidDate(DateOf(n)) && DayNumber(DateOf(n)) == n
  {
    YearFromSplits(1, n);
    var (y, d) := YearFrom(1, n);
    MonthFromSplits(y, 1, d);
    var (m, k) := MonthFrom(y, 1, d);
    assert DateOf(n) == Date(y, m, k + 1);
  }

  lemma {:induction false} DaysBeforeYearMonotonic(y: nat, y': nat)
    requires 1 <= y <= y'
    ensures DaysBeforeYear(y) <= DaysBeforeYear(y')
    ensures y < y' ==> DaysBeforeYear(y) + DaysInYear(y) <= DaysBeforeYear(y')
    decreases y' - y
  {
    if y < y' {
      DaysBeforeYearMonotonic(y, y' - 1);
    }
  }

  lemma {:induction false} DayInYear(d: Date)
    requires ValidDate(d)
    ensures DaysBeforeYear(d.year) <= DayNumber(d) < DaysBeforeYear(d.year) + DaysInYear(d.year)
  {
    YearLength(d.year);
    DaysBeforeMonthMonotonic(d.year, d.month + 1, 13);
  }

  /** A date of an earlier year, or month of the same year, is an earlier day. */
  lemma EarlierYear(d: Date, e: Date)
    requires ValidDate(d) && ValidDate(e) && d.year < e.year
    ensures DayNumber(d) < DayNumber(e)
  {
    DayInYear(d);
    DayInYear(e);
    hide ValidDate, DayNumber, DaysInYear, DaysBeforeYear;
    DaysBeforeYearMonotonic(d.year, e.year);
  }

  lemma EarlierMonth(d: Date, e: Date)
    requires ValidDate(d) && ValidDate(e) && d.year == e.year && d.month < e.month
    ensures DayNumber(d) < DayNumber(e)
  {
    assert DaysBeforeMonth(d.year, d.month + 1) == DaysBeforeMonth(d.year, d.month) + DaysInMonth(d.year, d.month);
    hide DaysInMonth, DaysBeforeYear, DaysBeforeMonth;
    DaysBeforeMonthMonotonic(d.year, d.month + 1, e.month);
  }

  lemma SameDay(d: Date, e: Date)
    requires ValidDate(d) && ValidDate(e) && DayNumber(d) == DayNumber(e)
    ensures d == e
  {
    hide ValidDate, DaysBeforeYear, DaysBeforeMonth;
    if d.year < e.year {
      EarlierYear(d, e);
    } else if e.year < d.year {
      EarlierYear(e, d);
    } else if d.month < e.month {
      EarlierMonth(d, e);
    } else if e.month < d.month {
      EarlierMonth(e, d);
    }
  }

  /** Different dates are different days, so every valid date is the date of its day. */
  lemma DayNumberInverse(d: Date)
    requires ValidDate(d)
    ensures DayNumber(d) >= 0 && DateOf(DayNumber(d)) == d
  {
    DateOfInverse(DayNumber(d));
    hide DateOf, DayNumber;
    SameDay(DateOf(DayNumber(d)), d);
  }

  lemma DivBy4(n: nat)
    requires 1 <= n
    ensures n / 4 == (n - 1) / 4 + if n % 4 == 0 then 1 else 0
  {
    var q, r := (n - 1) / 4, (n - 1) % 4;
    assert n == 4 * q + (r + 1);
    assert r == 3 ==> n == 4 * (q + 1);
  }

  lemma DivBy100(n: nat)
    requires 1 <= n
    ensures n / 100 == (n - 1) / 100 + if n % 100 == 0 then 1 else 0
  {
    var q, r := (n - 1) / 100, (n - 1) % 100;
    assert n == 100 * q + (r + 1);
    assert r == 99 ==> n == 100 * (q + 1);
  }

  lemma DivBy400(n: nat)
    requires 1 <= n
    ensures n / 400 == (n - 1) / 400 + if n % 400 == 0 then 1 else 0
  {
    var q, r := (n - 1) / 400, (n - 1) % 400;
    assert n == 400 * q + (r + 1);
    assert r == 399 ==> n == 400 * (q + 1);
  }

  lemma Times4(m: nat)
    ensures 4 * m % 4 == 0
  {
  }

  lemma Times100(m: nat)
    ensures 100 * m % 100 == 0
  {
  }

  lemma CenturiesAreFourths(n: nat)
    requires n % 100 == 0
    ensures n % 4 == 0
  {
    var k := n / 100;
    assert n == 4 * (25 * k);
    Times4(25 * k);
  }

  lemma FourCenturies(n: nat)
    requires n % 400 == 0
    ensures n % 100 == 0
  {
    var k := n / 400;
    assert n == 100 * (4 * k);
    Times100(4 * k);
  }

  /** The Gregorian rule: every fourth year is longer by a day, but of the full centuries only
      every fourth one. */
  lemma {:induction false} GregorianYears(y: nat)
    requires 1 <= y
    ensures var n := y - 1; DaysBeforeYear(y) == 365 * n + n / 4 - n / 100 + n / 400
  {
    if y > 1 {
      GregorianYears(y - 1);
      DivBy4(y - 1);
      DivBy100(y - 1);
      DivBy400(y - 1);
      if (y - 1) % 100 == 0 {
        CenturiesAreFourths(y - 1);
      }
      if (y - 1) % 400 == 0 {
        FourCenturies(y - 1);
      }
    }
  }

  /** From March on, the months of a year are 31, 30, 31, 30, 31 days long, over and over. */
  lemma GregorianMonths(y: nat, m: nat)
    requires 3 <= m <= 12
    ensures DaysBeforeMonth(y, m) == 59 + (if DaysInYear(y) == 366 then 1 else 0) + (153 * (m - 3) + 2) / 5
    ensures DaysBeforeMonth(y, 2) == 31
  {
    assert DaysBeforeMonth(y, 2) == 31 && DaysBeforeMonth(y, 3) == 31 + DaysInMonth(y, 2);
    assert DaysBeforeMonth(y, 5) == DaysBeforeMonth(y, 3) + 61 && DaysBeforeMonth(y, 4) == DaysBeforeMonth(y, 3) + 31;
    assert DaysBeforeMonth(y, 7) == DaysBeforeMonth(y, 5) + 61 && DaysBeforeMonth(y, 6) == DaysBeforeMonth(y, 5) + 31;
    assert DaysBeforeMonth(y, 9) == DaysBeforeMonth(y, 7) + 62 && DaysBeforeMonth(y, 8) == DaysBeforeMonth(y, 7) + 31;
    assert DaysBeforeMonth(y, 11) == DaysBeforeMonth(y, 9) + 61
           && DaysBeforeMonth(y, 10) == DaysBeforeMonth(y, 9) + 30;
    assert DaysBeforeMonth(y, 12) == DaysBeforeMonth(y, 11) + 30;
  }

  /** Two instants of one calendar month are less than 31 days apart. */
  lemma {:induction false} SameMonthIsClose(t: nat, u: nat)
    requires DateOf(t / DAY).year == DateOf(u / DAY).year
    requires DateOf(t / DAY).month == DateOf(u / DAY).month
    ensures t - u < 31 * DAY
  {
    DateOfInverse(t / DAY);
    DateOfInverse(u / DAY);
  }

  // --- Decimal labels --------------------------------------------------------

  function Pow10(n: nat): nat {
    if n == 0 then 1 else 10 * Pow10(n - 1)
  }

  /** `n` in decimal, zero-padded to `width` characters (the low digits of a larger `n`). */
  function Digits(n: nat, width: nat): (s: string)
    ensures |s| == width && ':' !in s
  {
    if width == 0 then "" else Digits(n / 10, width - 1) + ["0123456789"[n % 10]]
  }

  lemma {:induction false} DigitsInjective(m: nat, n: nat, width: nat)
    requires m < Pow10(width) && n < Pow10(width)
    requires Digits(m, width) == Digits(n, width)
    ensures m == n
  {
    if width > 0 {
      var a, b := Digits(m, width), Digits(n, width);
      assert a[..width - 1] == Digits(m / 10, width - 1) && b[..width - 1] == Digits(n / 10, width - 1);
      DigitsInjective(m / 10, n / 10, width - 1);
      assert "0123456789"[m % 10] == a[width - 1] == b[width - 1] == "0123456789"[n % 10];
    }
  }

  /** The number some decimal digits spell. */
  function Value(digits: string): int {
    if digits == "" then 0
    else 10 * Value(digits[..|digits| - 1]) + (digits[|digits| - 1] as int - '0' as int)
  }

  lemma {:induction false} DigitsSpell(n: nat, width: nat)
    requires n < Pow10(width)
    ensures Value(Digits(n, width)) == n
  {
    if width > 0 {
      var s := Digits(n, width);
      assert s[..width - 1] == Digits(n / 10, width - 1);
      DigitsSpell(n / 10, width - 1);
    }
  }

  function YearLabel(d: Date): string { Digits(d.year, 4) }
  function MonthLabel(d: Date): string { YearLabel(d) + Digits(d.month, 2) }
  function DayLabel(d: Date): string { MonthLabel(d) + Digits(d.day, 2) }

  lemma MonthLabelInjective(d: Date, e: Date)
    requires ValidDate(d) && ValidDate(e) && d.year <= 9999 && e.year <= 9999
    requires MonthLabel(d) == MonthLabel(e)
    ensures d.year == e.year && d.month == e.month
  {
    var a, b := MonthLabel(d), MonthLabel(e);
    assert a[..4] == YearLabel(d) && b[..4] == YearLabel(e);
    assert a[4..] == Digits(d.month, 2) && b[4..] == Digits(e.month, 2);
    assert Pow10(2) == 100 && Pow10(4) == 10000;
    DigitsInjective(d.year, e.year, 4);
    DigitsInjective(d.month, e.month, 2);
  }

  lemma DayLabelInjective(d: Date, e: Date)
    requires ValidDate(d) && ValidDate(e) && d.year <= 9999 && e.year <= 9999
    requires DayLabel(d) == DayLabel(e)
    ensures d == e
  {
    var a, b := DayLabel(d), DayLabel(e);
    assert a[..6] == MonthLabel(d) && b[..6] == MonthLabel(e);
    assert a[6..] == Digits(d.day, 2) && b[6..] == Digits(e.day, 2);
    MonthLabelInjective(d, e);
    assert Pow10(2) == 100;
    DigitsInjective(d.day, e.day, 2);
  }

  /** A day's label spells its year, month and day, in that order; a month's label is the start
      of its days' labels. */
  lemma LabelsSpell(d: Date)
    requires ValidDate(d) && d.year <= 9999
    ensures var s := DayLabel(d);
            && |s| == 8 && Value(s[..4]) == d.year && Value(s[4..6]) == d.month && Value(s[6..]) == d.day
            && MonthLabel(d) == s[..6]
  {
    var s := DayLabel(d);
    assert Pow10(2) == 100 && Pow10(4) == 10000;
    assert s[..4] == Digits(d.year, 4) && s[4..6] == Digits(d.month, 2) && s[6..] == Digits(d.day, 2);
    DigitsSpell(d.year, 4);
    DigitsSpell(d.month, 2);
    DigitsSpell(d.day, 2);
  }
}
