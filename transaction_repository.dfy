/**
 * `TransactionRepository`: the month-based entry points over the DAO
 * queries, the month balance, and the dense per-day series of a month that
 * the home chart draws.
 */
module TransactionRepository {
  import opened Seqs
  import opened Grouping
  import opened Dates
  import opened Entities
  import Dao = TransactionDao

  /** `YearMonth.from(month).atDay(1)`. */
  function MonthStart(month: LocalDate): LocalDate
  {
    AtDay(YearMonthOf(month), 1)
  }

  /** `YearMonth.from(month).atEndOfMonth()`. */
  function MonthEnd(month: LocalDate): LocalDate
  {
    AtEndOfMonth(YearMonthOf(month))
  }

  /** `month.withDayOfMonth(1)`, the style `getTransactionsByMonthOnce` uses. */
  function FirstOfMonth(month: LocalDate): LocalDate
  {
    WithDayOfMonth(month, 1)
  }

  /** `month.withDayOfMonth(month.lengthOfMonth())`. */
  function LastOfMonth(month: LocalDate): LocalDate
  {
    WithDayOfMonth(month, LengthOfMonth(month.year, month.month))
  }

  /** `getTransactionsByMonth(month)`. */
  function TransactionsByMonth(rows: seq<Transaction>, month: LocalDate): seq<Transaction>
  {
    Dao.TransactionsByMonth(rows, MonthStart(month), MonthEnd(month))
  }

  /** `getTransactionsByMonthOnce(month)`: the one-shot form of the same query. */
  function TransactionsByMonthOnce(rows: seq<Transaction>, month: LocalDate): seq<Transaction>
  {
    Dao.TransactionsByMonth(rows, FirstOfMonth(month), LastOfMonth(month))
  }

  function TotalIncomeByMonth(rows: seq<Transaction>, month: LocalDate): int
  {
    Dao.TotalIncomeByMonth(rows, MonthStart(month), MonthEnd(month))
  }

  function TotalExpenseByMonth(rows: seq<Transaction>, month: LocalDate): int
  {
    Dao.TotalExpenseByMonth(rows, MonthStart(month), MonthEnd(month))
  }

  /** `getBalanceByMonth(month)`: the two totals combined as income minus expense. */
  function BalanceByMonth(rows: seq<Transaction>, month: LocalDate): int
  {
    TotalIncomeByMonth(rows, month) - TotalExpenseByMonth(rows, month)
  }

  /** The rows of the month, in key order. */
  function MonthRows(rows: seq<Transaction>, month: LocalDate): seq<Transaction>
  {
    Dao.InRangeRows(rows, MonthStart(month), MonthEnd(month))
  }

  /** One day of the chart: that day's daily row, or zeros when the query has none. */
  function DayEntry(ym: YearMonth, day: int, daily: map<LocalDate, DailyTransaction>): (d: DayData)
    requires ValidYearMonth(ym) && 1 <= day <= LengthOfYearMonth(ym)
    ensures d.date == AtDay(ym, day)
    ensures d.date in daily ==> d.income == daily[d.date].totalIncome && d.expense == daily[d.date].totalExpense
    ensures d.date !in daily ==> d.income == 0 && d.expense == 0
  {
    var date := AtDay(ym, day);
    if date in daily then DayData(date, daily[date].totalIncome, daily[date].totalExpense)
    else DayData(date, 0, 0)
  }

  /** `(1..daysInMonth).map { day -> … }`. */
  function ChartDays(ym: YearMonth, daily: map<LocalDate, DailyTransaction>): (r: seq<DayData>)
    requires ValidYearMonth(ym)
    ensures |r| == LengthOfYearMonth(ym)
    ensures forall i :: 0 <= i < |r| ==> r[i] == DayEntry(ym, i + 1, daily)
  {
    seq(LengthOfYearMonth(ym), i requires 0 <= i < LengthOfYearMonth(ym) => DayEntry(ym, i + 1, daily))
  }

  /** The daily rows of the month keyed by date (`associateBy { it.date }`). */
  function DailyMap(rows: seq<Transaction>, month: LocalDate): map<LocalDate, DailyTransaction>
  {
    AssociateBy(Dao.DailyTransactionsByMonth(rows, MonthStart(month), MonthEnd(month)), Dao.DailyDate)
  }

  /** `getChartDataByMonth(month)`. */
  function ChartDataByMonth(rows: seq<Transaction>, month: LocalDate): (r: seq<DayData>)
    ensures |r| == LengthOfMonth(month.year, month.month)
    ensures forall i :: 0 <= i < |r| ==> r[i].date == Date(month.year, month.month, i + 1)
  {
    ChartDays(YearMonthOf(month), DailyMap(rows, month))
  }

  // -------------------------------------------------------------- lemmas

  /** Both ways of computing a month's first and last day give the same dates. */
  lemma RangeStylesAgree(rows: seq<Transaction>, month: LocalDate)
    ensures MonthStart(month) == FirstOfMonth(month) && MonthEnd(month) == LastOfMonth(month)
    ensures TransactionsByMonth(rows, month) == TransactionsByMonthOnce(rows, month)
  {
  }

  /** The month range holds exactly the dates of the month (years of four digits). */
  lemma MonthRangeIsMonth(t: Transaction, month: LocalDate)
    requires 0 <= month.year <= 9999
    ensures Dao.InRange(t, MonthStart(month), MonthEnd(month)) <==> YearMonthOf(t.date) == YearMonthOf(month)
  {
    Dao.InRangeIsChronological(t, MonthStart(month), MonthEnd(month));
    MonthIsInterval(YearMonthOf(month), t.date);
  }

  /** The balance is the month's income minus its expense. */
  lemma BalanceIsNet(rows: seq<Transaction>, month: LocalDate)
    ensures BalanceByMonth(rows, month)
            == SumBy(MonthRows(rows, month), IncomeAmount) - SumBy(MonthRows(rows, month), ExpenseAmount)
  {
    Dao.TotalIncomeIsSum(rows, MonthStart(month), MonthEnd(month));
    Dao.TotalExpenseIsSum(rows, MonthStart(month), MonthEnd(month));
  }

  /** The days of the series come in strictly ascending order. */
  lemma ChartAscending(rows: seq<Transaction>, month: LocalDate)
    ensures var r := ChartDataByMonth(rows, month);
      forall i, j :: 0 <= i < j < |r| ==> Before(r[i].date, r[j].date)
  {
  }

  /** Every day of the month has its entry, at the position of its day of month. */
  lemma ChartHasDay(rows: seq<Transaction>, month: LocalDate, e: Date)
    requires Valid(e) && YearMonthOf(e) == YearMonthOf(month)
    ensures e.day - 1 < |ChartDataByMonth(rows, month)| && ChartDataByMonth(rows, month)[e.day - 1].date == e
  {
  }

  /**
   * Each entry carries the income and expense of that day's rows in the
   * range; a day without rows gets 0 and 0.
   */
  lemma ChartDayTotals(rows: seq<Transaction>, month: LocalDate, i: int)
    requires 0 <= i < |ChartDataByMonth(rows, month)|
    ensures var d := ChartDataByMonth(rows, month)[i];
      var ofDay := ItemsWithKey(MonthRows(rows, month), DateOf, d.date);
      d.income == SumBy(ofDay, IncomeAmount) && d.expense == SumBy(ofDay, ExpenseAmount)
  {
    var start, end := MonthStart(month), MonthEnd(month);
    var daily := Dao.DailyTransactionsByMonth(rows, start, end);
    var m := DailyMap(rows, month);
    var d := ChartDataByMonth(rows, month)[i];
    var kept := MonthRows(rows, month);
    if d.date in m {
      var j := AssociateByLastWins(daily, Dao.DailyDate, d.date);
      Dao.DailyRowSums(rows, start, end, j);
    } else {
      Dao.DailyAbsentDate(rows, start, end, d.date);
    }
  }

  /** The days of the series are distinct and include the date of every row of the month. */
  lemma ChartKeys(rows: seq<Transaction>, month: LocalDate)
    requires 0 <= month.year <= 9999
    ensures var ks := MapSeq(ChartDataByMonth(rows, month), DayDate);
      Distinct(ks) && forall i :: 0 <= i < |MonthRows(rows, month)| ==> DateOf(MonthRows(rows, month)[i]) in ks
  {
    ChartKeysDistinct(rows, month);
    ChartKeysCover(rows, month);
  }

  lemma ChartKeysDistinct(rows: seq<Transaction>, month: LocalDate)
    ensures Distinct(MapSeq(ChartDataByMonth(rows, month), DayDate))
  {
    var ks := MapSeq(ChartDataByMonth(rows, month), DayDate);
    ChartAscending(rows, month);
    forall i, j | 0 <= i < j < |ks| ensures ks[i] != ks[j] {
      assert Before(ks[i], ks[j]);
    }
  }

  lemma ChartKeysCover(rows: seq<Transaction>, month: LocalDate)
    requires 0 <= month.year <= 9999
    ensures forall i :: 0 <= i < |MonthRows(rows, month)| ==> DateOf(MonthRows(rows, month)[i]) in MapSeq(ChartDataByMonth(rows, month), DayDate)
  {
    var kept := MonthRows(rows, month);
    var ks := MapSeq(ChartDataByMonth(rows, month), DayDate);
    forall i | 0 <= i < |kept| ensures DateOf(kept[i]) in ks {
      var t := kept[i];
      assert t in kept;
      MonthRangeIsMonth(t, month);
      ChartHasDay(rows, month, t.date);
      assert ks[t.date.day - 1] == t.date;
    }
  }

  /** For four-digit years the series adds up to the month's totals. */
  lemma ChartAddsUp(rows: seq<Transaction>, month: LocalDate)
    requires 0 <= month.year <= 9999
    ensures SumBy(ChartDataByMonth(rows, month), DayIncome) == TotalIncomeByMonth(rows, month)
    ensures SumBy(ChartDataByMonth(rows, month), DayExpense) == TotalExpenseByMonth(rows, month)
  {
    var r := ChartDataByMonth(rows, month);
    var kept := MonthRows(rows, month);
    var ks := MapSeq(r, DayDate);
    ChartKeys(rows, month);
    var gs := BuildGroups(ks, kept, DateOf);
    forall i | 0 <= i < |r|
      ensures DayIncome(r[i]) == SumBy(gs[i].items, IncomeAmount)
      ensures DayExpense(r[i]) == SumBy(gs[i].items, ExpenseAmount)
    {
      ChartDayTotals(rows, month, i);
    }
    SumMatchesGroups(r, gs, DayIncome, IncomeAmount);
    SumMatchesGroups(r, gs, DayExpense, ExpenseAmount);
    GroupTotalsSum(ks, kept, DateOf, IncomeAmount);
    GroupTotalsSum(ks, kept, DateOf, ExpenseAmount);
    Dao.TotalIncomeIsSum(rows, MonthStart(month), MonthEnd(month));
    Dao.TotalExpenseIsSum(rows, MonthStart(month), MonthEnd(month));
  }
}
