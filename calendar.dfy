/** Calendar dates as Python's `datetime.date` represents them: the proleptic
    Gregorian calendar, years 1 through 9999, and day ordinals counted from
    0001-01-01 (ordinal 1).  Subtracting two dates and taking `.days` gives the
    difference of their ordinals, which is what the battery rules compare. */
module Calendar {

  const MinYear: int := 1
  const MaxYear: int := 9999

  predicate IsLeap(year: int) {
    year % 4 == 0 && (year % 100 != 0 || year % 400 == 0)
  }

  function DaysInYear(year: int): (n: int)
    ensures n == 365 || n == 366
  {
    if IsLeap(year) then 366 else 365
  }

  function DaysInMonth(year: int, month: int): (n: int)
    requires 1 <= month <= 12
    ensures 28 <= n <= 31
  {
    if month == 2 then (if IsLeap(year) then 29 else 28)
    else if month == 4 || month == 6 || month == 9 || month == 11 then 30
    else 31
  }

  /** Number of days in the months of `year` that precede `month`. */
  function DaysBeforeMonth(year: int, month: int): (n: int)
    requires 1 <= month <= 12
  {
    [0, 31, 59, 90, 120, 151, 181, 212, 243, 273, 304, 334][month - 1]
    + (if month > 2 && IsLeap(year) then 1 else 0)
  }

  /** Number of days in the years that precede `year`, counted from year 1.
      All operands are non-negative, so Euclidean division agrees with
      Python's floor division here. */
  function DaysBeforeYear(year: int): (n: int)
    requires MinYear <= year
  {
    var y := year - 1;
    y * 365 + y / 4 - y / 100 + y / 400
  }

  datatype YearMonthDay = YearMonthDay(year: int, month: int, day: int) {

    predicate Valid() {
      && MinYear <= year <= MaxYear
      && 1 <= month <= 12
      && 1 <= day <= DaysInMonth(year, month)
    }

    /** Strict chronological order: year first, then month, then day. */
    predicate Before(other: YearMonthDay) {
      || year < other.year
      || (year == other.year && month < other.month)
      || (year == other.year && month == other.month && day < other.day)
    }
  }

  /** A date that Python's `date` constructor accepts. */
  type Date = d: YearMonthDay | d.Valid() witness YearMonthDay(1, 1, 1)

  function JanuaryFirst(year: int): Date
    requires MinYear <= year <= MaxYear
  {
    YearMonthDay(year, 1, 1)
  }

  function DecemberThirtyFirst(year: int): Date
    requires MinYear <= year <= MaxYear
  {
    YearMonthDay(year, 12, 31)
  }

  /** `date.toordinal()`. */
  function ToOrdinal(d: Date): (n: int)
    ensures 1 <= n
  {
    DaysBeforeYear(d.year) + DaysBeforeMonth(d.year, d.month) + d.day
  }

  /** `(to - from).days`: whole days elapsed from `from` to `to`, negative
      when `to` is the earlier date. */
  function DaysBetween(from: Date, to: Date): (days: int)
  {
    ToOrdinal(to) - ToOrdinal(from)
  }

  /** The first day of the calendar has ordinal 1. */
  lemma OrdinalOrigin()
    ensures ToOrdinal(YearMonthDay(1, 1, 1)) == 1
  {
  }

  /** A year contributes exactly its own length to the ordinal of the next
      January 1st. */
  lemma YearLength(year: int)
    requires MinYear <= year
    ensures DaysBeforeYear(year + 1) == DaysBeforeYear(year) + DaysInYear(year)
  {
    var y := year - 1;
    QuotientStep(y, 4);
    QuotientStep(y, 100);
    QuotientStep(y, 400);
    var by4 := if year % 4 == 0 then 1 else 0;
    var by100 := if year % 100 == 0 then 1 else 0;
    var by400 := if year % 400 == 0 then 1 else 0;
    assert DaysBeforeYear(year + 1) - DaysBeforeYear(year) == 365 + by4 - by100 + by400;
    if year % 400 == 0 {
      DivisionUnique(year, 100, 4 * (year / 400), 0);
    }
    if year % 100 == 0 {
      DivisionUnique(year, 4, 25 * (year / 100), 0);
    }
  }

  /** Euclidean division has one quotient and one remainder. */
  lemma DivisionUnique(n: int, divisor: int, q: int, r: int)
    requires 0 < divisor && 0 <= r < divisor && n == divisor * q + r
    ensures n / divisor == q && n % divisor == r
  {
    var q', r' := n / divisor, n % divisor;
    assert divisor * (q - q') == r' - r;
    if q > q' {
      MultipleAtLeast(divisor, q - q');
    } else if q < q' {
      MultipleAtLeast(divisor, q' - q);
    }
  }

  lemma MultipleAtLeast(divisor: int, k: int)
    requires 0 < divisor && 1 <= k
    ensures divisor <= divisor * k
  {
  }

  /** Moving from `n` to `n + 1` raises the quotient by one exactly when
      `n + 1` is a multiple of the divisor. */
  lemma QuotientStep(n: nat, divisor: int)
    requires 0 < divisor
    ensures (n + 1) / divisor == n / divisor + (if (n + 1) % divisor == 0 then 1 else 0)
  {
    var q, r := n / divisor, n % divisor;
    if r == divisor - 1 {
      DivisionUnique(n + 1, divisor, q + 1, 0);
    } else {
      DivisionUnique(n + 1, divisor, q, r + 1);
    }
  }

  /** Days in the `k` consecutive years starting with `year`, counted one
      year at a time: the reference that the closed form of `DaysBeforeYear`
      is checked against. */
  function YearsLength(year: int, k: nat): (n: int)
    decreases k
  {
    if k == 0 then 0 else YearsLength(year, k - 1) + DaysInYear(year + k - 1)
  }

  /** `k` consecutive calendar years hold between 365·k and 366·k days. */
  lemma {:induction false} YearsLengthBounds(year: int, k: nat)
    ensures 365 * k <= YearsLength(year, k) <= 366 * k
  {
    if k > 0 {
      YearsLengthBounds(year, k - 1);
    }
  }

  /** The closed form agrees with counting the years one by one. */
  lemma {:induction false} DaysBeforeYearCountsYears(year: int, k: nat)
    requires MinYear <= year
    ensures DaysBeforeYear(year + k) == DaysBeforeYear(year) + YearsLength(year, k)
  {
    if k > 0 {
      DaysBeforeYearCountsYears(year, k - 1);
      YearLength(year + k - 1);
    }
  }

  /** Days elapsed between the January 1st of two years. */
  lemma JanuaryFirstSpan(from: int, to: int)
    requires MinYear <= from <= to <= MaxYear
    ensures 365 * (to - from) <= DaysBetween(JanuaryFirst(from), JanuaryFirst(to)) <= 366 * (to - from)
  {
    DaysBeforeYearCountsYears(from, to - from);
    YearsLengthBounds(from, to - from);
  }

  /** From a January 1st to the last day of the year `k - 1` years later lie
      one day fewer than the `k` years hold. */
  lemma YearEndSpan(year: int, k: nat)
    requires MinYear <= year && 0 < k && year + k - 1 <= MaxYear
    ensures DaysBetween(JanuaryFirst(year), DecemberThirtyFirst(year + k - 1)) == YearsLength(year, k) - 1
  {
    DaysBeforeYearCountsYears(year, k - 1);
  }

  /** Within its year a date's ordinal lies between the year's first and last
      day. */
  lemma OrdinalWithinYear(d: Date)
    ensures DaysBeforeYear(d.year) < ToOrdinal(d) <= DaysBeforeYear(d.year) + DaysInYear(d.year)
  {
  }

  /** Every day of an earlier month precedes the first day of a later one. */
  lemma MonthsInOrder(year: int, m1: int, m2: int)
    requires 1 <= m1 < m2 <= 12
    ensures DaysBeforeMonth(year, m1) + DaysInMonth(year, m1) <= DaysBeforeMonth(year, m2)
  {
  }

  lemma {:induction false} OrdinalIncreasing(a: Date, b: Date)
    requires a.Before(b)
    ensures ToOrdinal(a) < ToOrdinal(b)
  {
    if a.year < b.year {
      OrdinalWithinYear(a);
      OrdinalWithinYear(b);
      DaysBeforeYearCountsYears(a.year, b.year - a.year);
      YearsLengthBounds(a.year, b.year - a.year);
    } else if a.month < b.month {
      MonthsInOrder(a.year, a.month, b.month);
    }
  }

  /** Chronological order and ordinal order coincide, and distinct dates have
      distinct ordinals: the elapsed days are positive exactly when `to` is
      later, and zero exactly when the dates are the same day. */
  lemma DaysBetweenSign(from: Date, to: Date)
    ensures DaysBetween(from, to) > 0 <==> from.Before(to)
    ensures DaysBetween(from, to) == 0 <==> from == to
  {
    if from.Before(to) {
      OrdinalIncreasing(from, to);
    } else if to.Before(from) {
      OrdinalIncreasing(to, from);
    }
  }
}
