/**
 * The part of `java.time.LocalDate` and `java.time.YearMonth` that the
 * application uses: validity, the proleptic Gregorian month lengths,
 * chronological order, `plusMonths`, `minusDays(1)`, `withDayOfMonth` and the
 * first and last day of a month.
 */
module Dates {
  import opened Wrappers

  /** `LocalDate.MIN` and `LocalDate.MAX` are in these years. */
  const MinYear: int := -999_999_999
  const MaxYear: int := 999_999_999

  datatype Date = Date(year: int, month: int, day: int)

  datatype YearMonth = YearMonth(year: int, month: int)

  predicate IsLeapYear(y: int)
  {
    y % 4 == 0 && (y % 100 != 0 || y % 400 == 0)
  }

  function LengthOfMonth(y: int, m: int): (n: int)
    requires 1 <= m <= 12
    ensures 28 <= n <= 31
    ensures n == 31 <==> m in {1, 3, 5, 7, 8, 10, 12}
    ensures n == 30 <==> m in {4, 6, 9, 11}
    ensures m == 2 ==> (n == 29 <==> IsLeapYear(y))
  {
    if m == 2 then (if IsLeapYear(y) then 29 else 28)
    else if m == 4 || m == 6 || m == 9 || m == 11 then 30
    else 31
  }

  predicate ValidYearMonth(ym: YearMonth)
  {
    MinYear <= ym.year <= MaxYear && 1 <= ym.month <= 12
  }

  /** A date `LocalDate.of` accepts. */
  predicate Valid(d: Date)
  {
    && MinYear <= d.year <= MaxYear
    && 1 <= d.month <= 12
    && 1 <= d.day <= LengthOfMonth(d.year, d.month)
  }

  /** The values of `java.time.LocalDate`: only valid dates exist. */
  type LocalDate = d: Date | Valid(d) witness Date(1970, 1, 1)

  // ------------------------------------------------------------ ordering

  /** `a.isBefore(b)`: chronological order, which on dates is order on (year, month, day). */
  predicate Before(a: Date, b: Date)
  {
    a.year < b.year
    || (a.year == b.year && (a.month < b.month || (a.month == b.month && a.day < b.day)))
  }

  /** The reversed order used by `sortedByDescending { it.date }` and `reverseOrder()`. */
  predicate After(a: Date, b: Date)
  {
    Before(b, a)
  }

  lemma BeforeIsStrictTotalOrder(a: Date, b: Date, c: Date)
    ensures !Before(a, a)
    ensures Before(a, b) && Before(b, c) ==> Before(a, c)
    ensures a != b ==> Before(a, b) || Before(b, a)
    ensures !(Before(a, b) && Before(b, a))
  {
  }

  // ------------------------------------------------------ month boundaries

  function YearMonthOf(d: Date): YearMonth
  {
    YearMonth(d.year, d.month)
  }

  function LengthOfYearMonth(ym: YearMonth): (n: int)
    requires 1 <= ym.month <= 12
    ensures 28 <= n <= 31
  {
    LengthOfMonth(ym.year, ym.month)
  }

  /** `YearMonth.atDay(day)`. */
  function AtDay(ym: YearMonth, day: int): (d: Date)
    requires ValidYearMonth(ym) && 1 <= day <= LengthOfYearMonth(ym)
    ensures Valid(d) && YearMonthOf(d) == ym && d.day == day
  {
    Date(ym.year, ym.month, day)
  }

  /** `YearMonth.atEndOfMonth()`. */
  function AtEndOfMonth(ym: YearMonth): (d: Date)
    requires ValidYearMonth(ym)
    ensures Valid(d) && YearMonthOf(d) == ym
    ensures forall e :: Valid(e) && YearMonthOf(e) == ym ==> !Before(d, e)
  {
    Date(ym.year, ym.month, LengthOfYearMonth(ym))
  }

  /** `LocalDate.withDayOfMonth(day)`. */
  function WithDayOfMonth(d: Date, day: int): (r: Date)
    requires Valid(d) && 1 <= day <= LengthOfMonth(d.year, d.month)
    ensures Valid(r) && YearMonthOf(r) == YearMonthOf(d) && r.day == day
  {
    d.(day := day)
  }

  /** `LocalDate.of(year, 1, 1)` for a year `LocalDate` holds. */
  function FirstOfYear(year: int): (d: LocalDate)
    requires MinYear <= year <= MaxYear
    ensures d.year == year && d.month == 1 && d.day == 1
  {
    Date(year, 1, 1)
  }

  /** The valid dates of a month are exactly those from its first to its last day. */
  lemma {:induction false} MonthIsInterval(ym: YearMonth, e: Date)
    requires ValidYearMonth(ym)
    ensures Valid(e) && YearMonthOf(e) == ym
      <==> !Before(e, AtDay(ym, 1)) && !Before(AtEndOfMonth(ym), e) && 1 <= e.day
  {
  }

  // --------------------------------------------------------- arithmetic

  /** The month count that `plusMonths` works with: `year * 12 + (month - 1)`. */
  function MonthIndex(year: int, month: int): int
  {
    year * 12 + (month - 1)
  }

  /**
   * `plusMonths(k)`: add to the month count, split it with floor division by
   * 12, and clamp the day to the new month's length. `None` is the
   * `DateTimeException` for a year outside the supported range.
   */
  function PlusMonths(d: Date, k: int): (r: Option<Date>)
    requires Valid(d)
    ensures r.Some? <==> MinYear <= (MonthIndex(d.year, d.month) + k) / 12 <= MaxYear
    ensures r.Some? ==> Valid(r.value)
    ensures r.Some? ==> MonthIndex(r.value.year, r.value.month) == MonthIndex(d.year, d.month) + k
    ensures r.Some? ==> r.value.day == Min(d.day, LengthOfMonth(r.value.year, r.value.month))
  {
    var count := MonthIndex(d.year, d.month) + k;
    var year, month := count / 12, count % 12 + 1;
    if year < MinYear || year > MaxYear then None
    else
      var n := LengthOfMonth(year, month);
      Some(Date(year, month, Min(d.day, n)))
  }

  function Min(a: int, b: int): int
  {
    if a <= b then a else b
  }

  /** Month counts identify the month. */
  lemma MonthIndexInjective(y1: int, m1: int, y2: int, m2: int)
    requires 1 <= m1 <= 12 && 1 <= m2 <= 12
    ensures MonthIndex(y1, m1) == MonthIndex(y2, m2) <==> y1 == y2 && m1 == m2
  {
  }

  /** Month counts order months chronologically. */
  lemma MonthIndexOrder(a: Date, b: Date)
    requires 1 <= a.month <= 12 && 1 <= b.month <= 12
    ensures MonthIndex(a.year, a.month) < MonthIndex(b.year, b.month) ==> Before(a, b)
  {
  }

  /** `minusDays(1)`; `None` is the `DateTimeException` below `LocalDate.MIN`. */
  function PrevDay(d: Date): (r: Option<Date>)
    requires Valid(d)
    ensures r.None? <==> d == Date(MinYear, 1, 1)
    ensures r.Some? ==> Valid(r.value) && Before(r.value, d)
  {
    if d.day > 1 then Some(d.(day := d.day - 1))
    else if d.month > 1 then Some(Date(d.year, d.month - 1, LengthOfMonth(d.year, d.month - 1)))
    else if d.year > MinYear then Some(Date(d.year - 1, 12, 31))
    else None
  }

  /** No valid date lies strictly between a date and the day before it. */
  lemma PrevDayIsImmediate(d: Date, e: Date)
    requires Valid(d) && PrevDay(d).Some? && Valid(e)
    ensures !(Before(PrevDay(d).value, e) && Before(e, d))
  {
  }
}
