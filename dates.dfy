/** Proleptic Gregorian calendar dates, as Python's `datetime.date` treats them:
    the leap-year rule, month lengths, a day ordinal that counts 0001-01-01 as
    day 1 (like `date.toordinal`), and shifting a date by a number of days
    (`date + timedelta(days=k)`). */
module Dates {

  /** A calendar date with no time component. */
  datatype Date = Date(year: int, month: int, day: int)

  /** The smallest and largest year `datetime` accepts. */
  const MinYear: int := 1
  const MaxYear: int := 9999

  /** The Gregorian leap rule: every fourth year, except centuries not divisible by 400. */
  predicate IsLeapYear(y: int)
  {
    y % 4 == 0 && (y % 100 != 0 || y % 400 == 0)
  }

  function DaysInMonth(y: int, m: int): (n: int)
    requires 1 <= m <= 12
    ensures 28 <= n <= 31
    ensures n == 29 <==> m == 2 && IsLeapYear(y)
    ensures n == 28 <==> m == 2 && !IsLeapYear(y)
  {
    if m == 2 then (if IsLeapYear(y) then 29 else 28)
    else if m == 4 || m == 6 || m == 9 || m == 11 then 30
    else 31
  }

  /** A date that exists in the calendar: a month 1..12 and a day within that month. */
  predicate IsValidDate(d: Date)
  {
    1 <= d.month <= 12 && 1 <= d.day <= DaysInMonth(d.year, d.month)
  }

  /** The dates that exist. */
  type CalendarDate = d: Date | IsValidDate(d) witness Date(1, 1, 1)

  /** Chronological order, by year, then month, then day (how `date` objects compare). */
  predicate Before(a: Date, b: Date)
  {
    a.year < b.year
    || (a.year == b.year && (a.month < b.month || (a.month == b.month && a.day < b.day)))
  }

  function YearLength(y: int): int
  {
    if IsLeapYear(y) then 366 else 365
  }

  /** Number of days in the years before `y`, counted from year 1. */
  function DaysBeforeYear(y: int): int
  {
    var p := y - 1;
    365 * p + p / 4 - p / 100 + p / 400
  }

  /** Number of days in the months of year `y` before month `m`. */
  function DaysBeforeMonth(y: int, m: int): int
    requires 1 <= m <= 12
  {
    var common :=
      if m == 1 then 0 else if m == 2 then 31 else if m == 3 then 59
      else if m == 4 then 90 else if m == 5 then 120 else if m == 6 then 151
      else if m == 7 then 181 else if m == 8 then 212 else if m == 9 then 243
      else if m == 10 then 273 else if m == 11 then 304 else 334;
    common + (if m > 2 && IsLeapYear(y) then 1 else 0)
  }

  /** The day number of a date; 0001-01-01 is day 1. */
  function Ordinal(d: Date): int
    requires 1 <= d.month <= 12
  {
    DaysBeforeYear(d.year) + DaysBeforeMonth(d.year, d.month) + d.day
  }

  lemma DaysBeforeMonthStep(y: int, m: int)
    requires 1 <= m < 12
    ensures DaysBeforeMonth(y, m + 1) == DaysBeforeMonth(y, m) + DaysInMonth(y, m)
  {
  }

  lemma DaysBeforeDecember(y: int)
    ensures DaysBeforeMonth(y, 12) + DaysInMonth(y, 12) == YearLength(y)
  {
  }

  /** Floor division by a positive constant steps by one exactly at multiples. */
  lemma DivStep(p: int, k: int)
    requires k > 0
    ensures (p + 1) / k == p / k + (if (p + 1) % k == 0 then 1 else 0)
  {
    var q, r := p / k, p % k;
    assert p == k * q + r && 0 <= r < k;
    if r == k - 1 {
      assert p + 1 == k * (q + 1);
      DivUnique(p + 1, k, q + 1, 0);
    } else {
      assert p + 1 == k * q + (r + 1);
      DivUnique(p + 1, k, q, r + 1);
    }
  }

  lemma DivUnique(n: int, k: int, q: int, r: int)
    requires k > 0 && 0 <= r < k && n == k * q + r
    ensures n / k == q && n % k == r
  {
    var q', r' := n / k, n % k;
    assert n == k * q' + r' && 0 <= r' < k;
    if q' < q {
      assert k * q - k * q' == k * (q - q');
      MulAtLeast(k, q - q');
    } else if q' > q {
      assert k * q' - k * q == k * (q' - q);
      MulAtLeast(k, q' - q);
    }
  }

  lemma MulAtLeast(k: int, j: int)
    requires k > 0 && j >= 1
    ensures k * j >= k
  {
  }

  /** The first day of year `y + 1` comes exactly one year-length after that of `y`. */
  lemma DaysBeforeYearStep(y: int)
    ensures DaysBeforeYear(y + 1) == DaysBeforeYear(y) + YearLength(y)
  {
    DivStep(y - 1, 4);
    DivStep(y - 1, 100);
    DivStep(y - 1, 400);
  }

  /** `DaysBeforeYear` is increasing, by at least a year-length per year. */
  lemma {:induction false} DaysBeforeYearMonotone(a: int, b: int)
    requires a < b
    ensures DaysBeforeYear(a) + YearLength(a) <= DaysBeforeYear(b)
    decreases b - a
  {
    DaysBeforeYearStep(a);
    if a + 1 < b {
      DaysBeforeYearMonotone(a + 1, b);
    }
  }

  /** The calendar day after `d`. */
  function Next(d: CalendarDate): (r: CalendarDate)
    ensures Ordinal(r) == Ordinal(d) + 1
  {
    if d.day < DaysInMonth(d.year, d.month) then Date(d.year, d.month, d.day + 1)
    else if d.month < 12 then
      DaysBeforeMonthStep(d.year, d.month);
      Date(d.year, d.month + 1, 1)
    else
      DaysBeforeDecember(d.year);
      DaysBeforeYearStep(d.year);
      Date(d.year + 1, 1, 1)
  }

  /** The calendar day before `d`. */
  function Prev(d: CalendarDate): (r: CalendarDate)
    ensures Ordinal(r) == Ordinal(d) - 1
  {
    if d.day > 1 then Date(d.year, d.month, d.day - 1)
    else if d.month > 1 then
      DaysBeforeMonthStep(d.year, d.month - 1);
      Date(d.year, d.month - 1, DaysInMonth(d.year, d.month - 1))
    else
      DaysBeforeDecember(d.year - 1);
      DaysBeforeYearStep(d.year - 1);
      Date(d.year - 1, 12, 31)
  }

  /** `d + timedelta(days=k)`: the date `k` calendar days after `d` (before it when `k < 0`). */
  function AddDays(d: CalendarDate, k: int): (r: CalendarDate)
    ensures Ordinal(r) == Ordinal(d) + k
    decreases if k < 0 then -k else k
  {
    if k == 0 then d
    else if k > 0 then AddDays(Next(d), k - 1)
    else AddDays(Prev(d), k + 1)
  }

  /** The ordinal of a date lies within its own year. */
  lemma OrdinalWithinYear(d: CalendarDate)
    ensures DaysBeforeYear(d.year) < Ordinal(d) <= DaysBeforeYear(d.year) + YearLength(d.year)
  {
    DaysBeforeDecember(d.year);
  }

  /** Within a year, a later month starts after every day of an earlier month. */
  lemma MonthsOrdered(y: int, m1: int, m2: int)
    requires 1 <= m1 < m2 <= 12
    ensures DaysBeforeMonth(y, m1) + DaysInMonth(y, m1) <= DaysBeforeMonth(y, m2)
  {
  }

  /** Chronological order is the order of ordinals. */
  lemma BeforeIsOrdinalOrder(a: CalendarDate, b: CalendarDate)
    ensures Before(a, b) <==> Ordinal(a) < Ordinal(b)
  {
    if a.year < b.year {
      OrdinalWithinYear(a);
      OrdinalWithinYear(b);
      DaysBeforeYearMonotone(a.year, b.year);
    } else if b.year < a.year {
      OrdinalWithinYear(a);
      OrdinalWithinYear(b);
      DaysBeforeYearMonotone(b.year, a.year);
    } else if a.month < b.month {
      MonthsOrdered(a.year, a.month, b.month);
    } else if b.month < a.month {
      MonthsOrdered(a.year, b.month, a.month);
    }
  }

  /** Distinct dates have distinct ordinals. */
  lemma OrdinalInjective(a: CalendarDate, b: CalendarDate)
    requires Ordinal(a) == Ordinal(b)
    ensures a == b
  {
    BeforeIsOrdinalOrder(a, b);
    BeforeIsOrdinalOrder(b, a);
  }

  /** Shifting by `j` and then by `k` days is shifting by `j + k` days. */
  lemma AddDaysCompose(d: CalendarDate, j: int, k: int)
    ensures AddDays(AddDays(d, j), k) == AddDays(d, j + k)
  {
    OrdinalInjective(AddDays(AddDays(d, j), k), AddDays(d, j + k));
  }

  /** `Next` is the immediate successor: no date lies strictly between `d` and `Next(d)`. */
  lemma NextIsImmediate(d: CalendarDate, e: CalendarDate)
    ensures Before(d, Next(d))
    ensures !(Before(d, e) && Before(e, Next(d)))
  {
    BeforeIsOrdinalOrder(d, Next(d));
    BeforeIsOrdinalOrder(d, e);
    BeforeIsOrdinalOrder(e, Next(d));
  }

  /** One day forward and one day back return to the same date. */
  lemma NextPrevInverse(d: CalendarDate)
    ensures Prev(Next(d)) == d && Next(Prev(d)) == d
  {
    OrdinalInjective(Prev(Next(d)), d);
    OrdinalInjective(Next(Prev(d)), d);
  }
}
