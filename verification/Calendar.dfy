/** Dates of the Gregorian calendar, with the arithmetic that date and timedelta give. */
module Calendar {

  datatype Date = Date(year: int, month: int, day: int)

  predicate Leap(y: int) {
    y % 4 == 0 && (y % 100 != 0 || y % 400 == 0)
  }

  function MonthLength(y: int, m: int): (n: int)
    ensures 28 <= n <= 31
  {
    if m == 2 then (if Leap(y) then 29 else 28)
    else if m in {4, 6, 9, 11} then 30
    else 31
  }

  predicate Valid(d: Date) {
    d.year >= 1 && 1 <= d.month <= 12 && 1 <= d.day <= MonthLength(d.year, d.month)
  }

  /** The comparison of dates. */
  predicate Before(a: Date, b: Date) {
    a.year < b.year || (a.year == b.year && (a.month < b.month || (a.month == b.month && a.day < b.day)))
  }

  predicate SameMonth(a: Date, b: Date) {
    a.year == b.year && a.month == b.month
  }

  function DaysBeforeYear(y: int): int {
    365 * (y - 1) + (y - 1) / 4 - (y - 1) / 100 + (y - 1) / 400
  }

  function DaysBeforeMonth(y: int, m: int): (n: int)
    requires 1 <= m <= 13
    decreases m
  {
    if m == 1 then 0 else DaysBeforeMonth(y, m - 1) + MonthLength(y, m - 1)
  }

  /** The number of the day. */
  function Ordinal(d: Date): int
    requires Valid(d)
  {
    DaysBeforeYear(d.year) + DaysBeforeMonth(d.year, d.month) + d.day
  }

  lemma QuotientSteps(y: int)
    ensures y / 4 == (y - 1) / 4 + if y % 4 == 0 then 1 else 0
    ensures y / 100 == (y - 1) / 100 + if y % 100 == 0 then 1 else 0
    ensures y / 400 == (y - 1) / 400 + if y % 400 == 0 then 1 else 0
  {
  }

  lemma CenturiesDivide(y: int)
    ensures y % 100 == 0 ==> y % 4 == 0
    ensures y % 400 == 0 ==> y % 100 == 0
  {
  }

  lemma YearLength(y: int)
    ensures DaysBeforeYear(y + 1) == DaysBeforeYear(y) + if Leap(y) then 366 else 365
  {
    QuotientSteps(y);
    CenturiesDivide(y);
    var a, b, c := y / 4, y / 100, y / 400;
    var a', b', c' := (y - 1) / 4, (y - 1) / 100, (y - 1) / 400;
    assert DaysBeforeYear(y + 1) == 365 * y + a - b + c;
    assert DaysBeforeYear(y) == 365 * (y - 1) + a' - b' + c';
  }

  lemma MonthsFillYear(y: int)
    ensures DaysBeforeMonth(y, 13) == if Leap(y) then 366 else 365
  {
  }

  lemma {:induction false} MonthsGrow(y: int, m: int, n: int)
    requires 1 <= m < n <= 13
    ensures DaysBeforeMonth(y, m) + MonthLength(y, m) <= DaysBeforeMonth(y, n)
    decreases n
  {
    if m < n - 1 {
      MonthsGrow(y, m, n - 1);
    }
  }

  lemma {:induction false} YearsGrow(y: int, z: int)
    requires y < z
    ensures DaysBeforeYear(y) + DaysBeforeMonth(y, 13) <= DaysBeforeYear(z)
    decreases z - y
  {
    MonthsFillYear(y);
    YearLength(y);
    hide DaysBeforeYear;
    if y + 1 < z {
      YearsGrow(y + 1, z);
      MonthsFillYear(y + 1);
    }
  }

  lemma WithinYear(d: Date)
    requires Valid(d)
    ensures 1 <= DaysBeforeMonth(d.year, d.month) + d.day <= DaysBeforeMonth(d.year, 13)
  {
    MonthsGrow(d.year, d.month, 13);
    if d.month > 1 {
      MonthsGrow(d.year, 1, d.month);
    }
  }

  /** The comparison of dates is the comparison of their numbers. */
  lemma BeforeIsOrdinal(a: Date, b: Date)
    requires Valid(a) && Valid(b)
    ensures Before(a, b) <==> Ordinal(a) < Ordinal(b)
    ensures a == b <==> Ordinal(a) == Ordinal(b)
  {
    if Before(a, b) {
      BeforeCounts(a, b);
    } else if Before(b, a) {
      BeforeCounts(b, a);
    }
  }

  lemma BeforeCounts(a: Date, b: Date)
    requires Valid(a) && Valid(b) && Before(a, b)
    ensures Ordinal(a) < Ordinal(b)
  {
    hide DaysBeforeYear, DaysBeforeMonth, MonthLength;
    if a.year < b.year {
      YearsGrow(a.year, b.year);
      WithinYear(a);
      WithinYear(b);
    } else if a.month < b.month {
      MonthsGrow(a.year, a.month, b.month);
    }
  }

  // --- stepping back ---

  /** The day before; the first of all days stays. */
  function PreviousDay(d: Date): (r: Date)
    requires Valid(d) && Before(Date(1, 1, 1), d)
    ensures Valid(r)
  {
    if d.day > 1 then Date(d.year, d.month, d.day - 1)
    else if d.month > 1 then Date(d.year, d.month - 1, MonthLength(d.year, d.month - 1))
    else Date(d.year - 1, 12, 31)
  }

  lemma PreviousDayOrdinal(d: Date)
    requires Valid(d) && Before(Date(1, 1, 1), d)
    ensures Ordinal(PreviousDay(d)) == Ordinal(d) - 1
  {
    hide DaysBeforeYear, Leap;
    if d.day == 1 && d.month == 1 {
      YearEnd(d.year - 1);
    } else if d.day == 1 {
      hide MonthLength;
    } else {
      hide DaysBeforeMonth, MonthLength;
    }
  }

  lemma YearEnd(y: int)
    ensures DaysBeforeYear(y + 1) == DaysBeforeYear(y) + DaysBeforeMonth(y, 12) + 31
  {
    hide DaysBeforeYear, Leap;
    MonthsFillYear(y);
    YearLength(y);
    assert DaysBeforeMonth(y, 13) == DaysBeforeMonth(y, 12) + MonthLength(y, 12);
  }

  lemma FirstOrdinal()
    ensures Valid(Date(1, 1, 1)) && Ordinal(Date(1, 1, 1)) == 1
  {
  }

  lemma OrdinalIsPositive(d: Date)
    requires Valid(d)
    ensures Ordinal(d) >= 1 && (Ordinal(d) > 1 <==> Before(Date(1, 1, 1), d))
  {
    hide Ordinal, DaysBeforeYear, DaysBeforeMonth, MonthLength;
    FirstOrdinal();
    BeforeIsOrdinal(Date(1, 1, 1), d);
    BeforeIsOrdinal(d, Date(1, 1, 1));
  }

  /** `d` minus `n` days. */
  function Back(d: Date, n: nat): (r: Date)
    requires Valid(d) && n < Ordinal(d)
    ensures Valid(r) && Ordinal(r) == Ordinal(d) - n
    decreases n
  {
    if n == 0 then d
    else
      OrdinalIsPositive(d);
      PreviousDayOrdinal(d);
      Back(PreviousDay(d), n - 1)
  }

  /** Days between two days of one month lie in that month. */
  lemma MonthIsConvex(a: Date, b: Date, d: Date)
    requires SameMonth(a, b) && !Before(d, a) && !Before(b, d)
    ensures SameMonth(d, a)
  {
  }
}
