/** The proleptic Gregorian calendar of Python's datetime: a date is its ordinal, day 1
    being 0001-01-01. Months are numbered 12 * year + month - 1. */
module Calendar {

  /** A date, as its ordinal. */
  type Date = d: int | d >= 1 witness 1

  predicate Leap(y: int) {
    y % 4 == 0 && (y % 100 != 0 || y % 400 == 0)
  }

  function DaysInMonth(y: int, m: int): (n: nat)
    requires 1 <= m <= 12
    ensures 28 <= n <= 31
  {
    if m == 2 then (if Leap(y) then 29 else 28)
    else if m == 4 || m == 6 || m == 9 || m == 11 then 30
    else 31
  }

  function DaysBeforeYear(y: int): int {
    (y - 1) * 365 + (y - 1) / 4 - (y - 1) / 100 + (y - 1) / 400
  }

  function DaysBeforeMonth(y: int, m: int): nat
    requires 1 <= m <= 12
  {
    if m == 1 then 0 else DaysBeforeMonth(y, m - 1) + DaysInMonth(y, m - 1)
  }

  /** The ordinal of the first day of month `k`. */
  function MonthStart(k: int): int {
    DaysBeforeYear(k / 12) + DaysBeforeMonth(k / 12, k % 12 + 1) + 1
  }

  lemma FourthYears(y: int)
    ensures y / 4 - (y - 1) / 4 == if y % 4 == 0 then 1 else 0
  {
  }

  lemma HundredthYears(y: int)
    ensures y / 100 - (y - 1) / 100 == if y % 100 == 0 then 1 else 0
    ensures y % 100 == 0 ==> y % 4 == 0
  {
    if y % 100 == 0 { assert y == 4 * (25 * (y / 100)); }
  }

  lemma FourHundredthYears(y: int)
    ensures y / 400 - (y - 1) / 400 == if y % 400 == 0 then 1 else 0
    ensures y % 400 == 0 ==> y % 100 == 0
  {
    if y % 400 == 0 { assert y == 100 * (4 * (y / 400)); }
  }

  lemma LeapIs(y: int)
    ensures (if Leap(y) then 1 else 0)
         == (if y % 4 == 0 then 1 else 0) - (if y % 100 == 0 then 1 else 0) + (if y % 400 == 0 then 1 else 0)
  {
    HundredthYears(y);
    FourHundredthYears(y);
  }

  lemma DaysBeforeNextYear(y: int)
    ensures DaysBeforeYear(y + 1) - DaysBeforeYear(y)
         == 365 + (y / 4 - (y - 1) / 4) - (y / 100 - (y - 1) / 100) + (y / 400 - (y - 1) / 400)
  {
    assert y + 1 - 1 == y;
  }

  lemma YearLength(y: int)
    ensures DaysBeforeYear(y + 1) == DaysBeforeYear(y) + (if Leap(y) then 366 else 365)
  {
    hide DaysBeforeYear, Leap;
    DaysBeforeNextYear(y);
    FourthYears(y);
    HundredthYears(y);
    FourHundredthYears(y);
    LeapIs(y);
  }

  lemma YearOfMonths(y: int)
    ensures DaysBeforeMonth(y, 12) + DaysInMonth(y, 12) == if Leap(y) then 366 else 365
  {
    assert DaysBeforeMonth(y, 3) == 31 + DaysInMonth(y, 2) by { assert DaysBeforeMonth(y, 2) == 31; }
    assert DaysBeforeMonth(y, 5) == DaysBeforeMonth(y, 3) + 61 by { assert DaysBeforeMonth(y, 4) == DaysBeforeMonth(y, 3) + 31; }
    assert DaysBeforeMonth(y, 7) == DaysBeforeMonth(y, 5) + 61 by { assert DaysBeforeMonth(y, 6) == DaysBeforeMonth(y, 5) + 31; }
    assert DaysBeforeMonth(y, 9) == DaysBeforeMonth(y, 7) + 62 by { assert DaysBeforeMonth(y, 8) == DaysBeforeMonth(y, 7) + 31; }
    assert DaysBeforeMonth(y, 11) == DaysBeforeMonth(y, 9) + 61 by { assert DaysBeforeMonth(y, 10) == DaysBeforeMonth(y, 9) + 30; }
  }

  /** The next month starts where this one ends, across year ends and leap days. */
  lemma MonthLength(k: int)
    ensures MonthStart(k + 1) == MonthStart(k) + DaysInMonth(k / 12, k % 12 + 1)
  {
    var y, m := k / 12, k % 12 + 1;
    if m == 12 {
      assert (k + 1) / 12 == y + 1 && (k + 1) % 12 == 0;
      YearLength(y);
      YearOfMonths(y);
    } else {
      assert (k + 1) / 12 == y && (k + 1) % 12 == m;
    }
  }

  lemma {:induction false} MonthsApart(a: int, b: int)
    requires a <= b
    ensures MonthStart(b) - MonthStart(a) >= 28 * (b - a)
    decreases b - a
  {
    if a < b {
      MonthsApart(a, b - 1);
      MonthLength(b - 1);
    }
  }

  /** The month a date lies in. */
  function MonthOf(d: Date): (k: int)
    ensures k >= 12 && MonthStart(k) <= d < MonthStart(k + 1)
  {
    assert MonthStart(12) == 1;
    MonthFrom(d, 12)
  }

  function MonthFrom(d: int, k: int): (r: int)
    requires MonthStart(k) <= d
    ensures r >= k && MonthStart(r) <= d < MonthStart(r + 1)
    decreases d - MonthStart(k)
  {
    hide MonthStart;
    if d < MonthStart(k + 1) then k
    else
      MonthLength(k);
      MonthFrom(d, k + 1)
  }

  /** Day of the month and month of the year. */
  function DayOfMonth(d: Date): (n: int)
    ensures 1 <= n <= 31
  {
    MonthLength(MonthOf(d));
    d - MonthStart(MonthOf(d)) + 1
  }

  function MonthOfYear(d: Date): (m: int)
    ensures 1 <= m <= 12
  {
    MonthOf(d) % 12 + 1
  }

  /** Python's `date.weekday()`, Monday being 0. */
  function Weekday(d: Date): int {
    (d + 6) % 7
  }

  lemma MonthOfMonotone(c: Date, d: Date)
    requires c <= d
    ensures MonthOf(c) <= MonthOf(d)
  {
    hide MonthStart;
    if MonthOf(d) < MonthOf(c) {
      MonthsApart(MonthOf(d) + 1, MonthOf(c));
    }
  }

  /** Every date of a window of at most 28 days lies in the month of one of its ends. */
  lemma ShortWindow(a: Date, d: Date, b: Date)
    requires a <= d <= b && b - a <= 28
    ensures MonthOf(d) == MonthOf(a) || MonthOf(d) == MonthOf(b)
  {
    hide MonthStart;
    MonthOfMonotone(a, d);
    MonthOfMonotone(d, b);
    var j, k, l := MonthOf(a), MonthOf(d), MonthOf(b);
    if j < k < l {
      MonthsApart(j + 1, l);
    }
  }

  /** The months read for the 30-day totals: today's, and those 15 and 31 days back. */
  function MonthsRead(today: Date): set<int>
    requires today >= 32
  {
    {MonthOf(today), MonthOf(today - 15), MonthOf(today - 31)}
  }

  /** They hold every date of the last 30 days, whatever the year. */
  lemma MonthsReadCover(today: Date, age: int)
    requires today >= 32 && 0 <= age < 30
    ensures MonthOf(today - age) in MonthsRead(today)
  {
    hide MonthStart;
    if age <= 15 {
      ShortWindow(today - 15, today - age, today);
    } else {
      ShortWindow(today - 31, today - age, today - 15);
    }
  }
}
