/**
 * `ReportViewModel`: the breakdown of one transaction type over a month or a
 * year by category, and the handlers that change the period or the type and
 * reload. The aggregation is a function of the rows the store returns; the
 * view-model is a class whose fields are the screen state.
 */
module Report {
  import opened Wrappers
  import opened Seqs
  import opened Sorting
  import opened Grouping
  import opened Dates
  import opened Entities
  import opened Views
  import Dao = TransactionDao
  import CategoryDao

  /** `CategoryStatUi`; `color` is the ARGB value the colour text parses to. */
  datatype CategoryStat = CategoryStat(
    id: int,
    categoryId: int,
    name: string,
    icon: Option<string>,
    color: nat,
    amount: int,
    percentage: real,
    count: nat)

  /** The rows a report shows, and their sum. */
  datatype ReportData = ReportData(stats: seq<CategoryStat>, total: int)

  /** The name shown for a category id the category table does not hold. */
  const OtherName: string := "Khác"

  // ------------------------------------------------------------- period

  /** The first day of the period: 1 January in year mode, else the first of the month. */
  function PeriodStart(selected: LocalDate, yearMode: bool): LocalDate
  {
    if yearMode then Date(selected.year, 1, 1) else WithDayOfMonth(selected, 1)
  }

  /** The last day of the period: 31 December in year mode, else the last of the month. */
  function PeriodEnd(selected: LocalDate, yearMode: bool): LocalDate
  {
    if yearMode then Date(selected.year, 12, 31) else WithDayOfMonth(selected, LengthOfMonth(selected.year, selected.month))
  }

  /** `if (isIncome) TransactionType.INCOME else TransactionType.EXPENSE`. */
  function TypeOf(isIncome: bool): TransactionType
  {
    if isIncome then Income else Expense
  }

  predicate OfType(t: Transaction, ttype: TransactionType) { t.ttype == ttype }

  /** The period's rows (`getTransactionsByMonthOnce`) of the selected type, in query order. */
  function PeriodRows(rows: seq<Transaction>, selected: LocalDate, yearMode: bool, isIncome: bool): seq<Transaction>
  {
    Filter(Dao.TransactionsByMonth(rows, PeriodStart(selected, yearMode), PeriodEnd(selected, yearMode)),
           t => OfType(t, TypeOf(isIncome)))
  }

  // -------------------------------------------------------------- stats

  /** `amount / total * 100` when the total is positive, else 0; kept exact. */
  function Percentage(amount: int, total: int): real
  {
    if total > 0 then amount as real / total as real * 100.0 else 0.0
  }

  /** The stat of one category's group. */
  function StatOf(g: Group<int, Transaction>, categories: map<int, Category>, total: int): CategoryStat
  {
    var amount := SumBy(g.items, Amount);
    var category := Lookup(categories, g.key);
    CategoryStat(
      if category.Some? then category.value.id else 0,
      g.key,
      if category.Some? then category.value.name else OtherName,
      if category.Some? then Some(category.value.icon) else None,
      ResolveColor(category),
      amount,
      Percentage(amount, total),
      |g.items|)
  }

  /** One stat per group, in group order. */
  function GroupStats(gs: seq<Group<int, Transaction>>, categories: map<int, Category>, total: int): seq<CategoryStat>
  {
    MapSeq(gs, g => StatOf(g, categories, total))
  }

  /** `sortedByDescending { it.amount }`: `a` is listed first when its amount is larger. */
  predicate LargerAmount(a: CategoryStat, b: CategoryStat) { a.amount > b.amount }

  function StatAmount(s: CategoryStat): int { s.amount }

  function StatCount(s: CategoryStat): int { s.count }

  function StatCategory(s: CategoryStat): int { s.categoryId }

  /** `groupBy { it.categoryId }`, one stat per group, sorted by amount, largest first. */
  function Breakdown(filtered: seq<Transaction>, categories: map<int, Category>): seq<CategoryStat>
  {
    SortBy(GroupStats(GroupBy(filtered, CategoryIdOf), categories, SumBy(filtered, Amount)), LargerAmount)
  }

  /** What a successful load computes from the two tables. */
  function ReportOf(rows: seq<Transaction>, cats: seq<Category>, selected: LocalDate, yearMode: bool,
                    isIncome: bool): ReportData
  {
    var filtered := PeriodRows(rows, selected, yearMode, isIncome);
    ReportData(Breakdown(filtered, CategoryMap(CategoryDao.AllCategories(cats))), SumBy(filtered, Amount))
  }

  // ------------------------------------------------------------- lemmas

  /** In year mode the period holds the dates of the selected year (years of four digits). */
  lemma YearPeriod(t: Transaction, selected: LocalDate)
    requires 0 <= selected.year <= 9999
    ensures Dao.InRange(t, PeriodStart(selected, true), PeriodEnd(selected, true)) <==> t.date.year == selected.year
  {
    Dao.InRangeIsChronological(t, PeriodStart(selected, true), PeriodEnd(selected, true));
  }

  /** In month mode the period holds the dates of the selected month (years of four digits). */
  lemma MonthPeriod(t: Transaction, selected: LocalDate)
    requires 0 <= selected.year <= 9999
    ensures Dao.InRange(t, PeriodStart(selected, false), PeriodEnd(selected, false))
            <==> YearMonthOf(t.date) == YearMonthOf(selected)
  {
    Dao.InRangeIsChronological(t, PeriodStart(selected, false), PeriodEnd(selected, false));
    MonthIsInterval(YearMonthOf(selected), t.date);
  }

  /** Exactly the stored rows in the period whose type matches `isIncome` are counted, each once per occurrence. */
  lemma PeriodRowsSelect(rows: seq<Transaction>, selected: LocalDate, yearMode: bool, isIncome: bool)
    ensures var start, end := PeriodStart(selected, yearMode), PeriodEnd(selected, yearMode);
      forall t :: multiset(PeriodRows(rows, selected, yearMode, isIncome))[t]
        == if Dao.InRange(t, start, end) && (t.ttype == Income <==> isIncome) then multiset(rows)[t] else 0
  {
    var start, end := PeriodStart(selected, yearMode), PeriodEnd(selected, yearMode);
    var fetched := Dao.TransactionsByMonth(rows, start, end);
    forall t ensures multiset(PeriodRows(rows, selected, yearMode, isIncome))[t]
        == if Dao.InRange(t, start, end) && (t.ttype == Income <==> isIncome) then multiset(rows)[t] else 0
    {
      FilterMultiset(fetched, x => OfType(x, TypeOf(isIncome)), t);
    }
  }

  /** The stats, unsorted, are those of the category groups, one for one. */
  lemma GroupStatsAt(gs: seq<Group<int, Transaction>>, categories: map<int, Category>, total: int, i: int)
    requires 0 <= i < |gs|
    ensures GroupStats(gs, categories, total)[i] == StatOf(gs[i], categories, total)
  {
  }

  /** The category ids of the unsorted stats are the distinct ids of the rows. */
  lemma StatCategories(filtered: seq<Transaction>, categories: map<int, Category>)
    ensures MapSeq(GroupStats(GroupBy(filtered, CategoryIdOf), categories, SumBy(filtered, Amount)), StatCategory)
            == DistinctKeys(filtered, CategoryIdOf)
  {
    var ks := DistinctKeys(filtered, CategoryIdOf);
    var gs := GroupBy(filtered, CategoryIdOf);
    var u := GroupStats(gs, categories, SumBy(filtered, Amount));
    forall i | 0 <= i < |ks| ensures MapSeq(u, StatCategory)[i] == ks[i] {
      GroupStatsAt(gs, categories, SumBy(filtered, Amount), i);
    }
  }

  /** The category ids of the sorted stats are those of the unsorted ones, reordered. */
  lemma BreakdownIds(filtered: seq<Transaction>, categories: map<int, Category>)
    ensures multiset(MapSeq(Breakdown(filtered, categories), StatCategory)) == multiset(DistinctKeys(filtered, CategoryIdOf))
  {
    var u := GroupStats(GroupBy(filtered, CategoryIdOf), categories, SumBy(filtered, Amount));
    StatCategories(filtered, categories);
    MapPermutation(u, Breakdown(filtered, categories), StatCategory);
  }

  /** No category id has two stats. */
  lemma OneStatPerCategory(filtered: seq<Transaction>, categories: map<int, Category>)
    ensures var r := Breakdown(filtered, categories);
      forall i, j :: 0 <= i < j < |r| ==> r[i].categoryId != r[j].categoryId
  {
    var r := Breakdown(filtered, categories);
    BreakdownIds(filtered, categories);
    var ids := MapSeq(r, StatCategory);
    PermutationKeepsDistinct(DistinctKeys(filtered, CategoryIdOf), ids);
    forall i, j | 0 <= i < j < |r| ensures r[i].categoryId != r[j].categoryId {
      assert ids[i] == r[i].categoryId && ids[j] == r[j].categoryId;
    }
  }

  /** A category id has a stat iff some counted row carries it. */
  lemma StatsCoverCategories(filtered: seq<Transaction>, categories: map<int, Category>)
    ensures forall c :: c in MapSeq(Breakdown(filtered, categories), StatCategory)
                    <==> exists t :: t in filtered && t.categoryId == c
  {
    var ids := MapSeq(Breakdown(filtered, categories), StatCategory);
    var ks := DistinctKeys(filtered, CategoryIdOf);
    BreakdownIds(filtered, categories);
    forall c ensures c in ids <==> exists t :: t in filtered && t.categoryId == c {
      assert c in ids <==> c in multiset(ids);
      assert c in ks <==> c in multiset(ks);
      if c in ks {
        var i :| 0 <= i < |filtered| && CategoryIdOf(filtered[i]) == c;
        assert filtered[i] in filtered;
      }
    }
  }

  /** Each sorted stat is the stat of some category group. */
  lemma BreakdownFromGroup(filtered: seq<Transaction>, categories: map<int, Category>, i: int) returns (k: int)
    requires 0 <= i < |Breakdown(filtered, categories)|
    ensures var ks := DistinctKeys(filtered, CategoryIdOf);
      && 0 <= k < |ks|
      && Breakdown(filtered, categories)[i]
         == StatOf(Group(ks[k], ItemsWithKey(filtered, CategoryIdOf, ks[k])), categories, SumBy(filtered, Amount))
  {
    var total := SumBy(filtered, Amount);
    var gs := GroupBy(filtered, CategoryIdOf);
    var u := GroupStats(gs, categories, total);
    var r := Breakdown(filtered, categories);
    assert r[i] in multiset(u) by {
      assert r[i] in multiset(r);
    }
    k :| 0 <= k < |u| && u[k] == r[i];
    GroupStatsAt(gs, categories, total, k);
  }

  /** Each stat carries the sum and the number of its category's rows, and resolves the category or falls back. */
  lemma StatIsItsCategory(filtered: seq<Transaction>, categories: map<int, Category>, i: int)
    requires 0 <= i < |Breakdown(filtered, categories)|
    ensures var s := Breakdown(filtered, categories)[i];
      var items := ItemsWithKey(filtered, CategoryIdOf, s.categoryId);
      && items != []
      && s.amount == SumBy(items, Amount)
      && s.count == |items|
      && s.percentage == Percentage(s.amount, SumBy(filtered, Amount))
      && s.color == ResolveColor(Lookup(categories, s.categoryId))
      && (s.categoryId in categories ==>
            s.id == categories[s.categoryId].id && s.name == categories[s.categoryId].name
            && s.icon == Some(categories[s.categoryId].icon))
      && (s.categoryId !in categories ==> s.id == 0 && s.name == OtherName && s.icon == None && s.color == 0xFF60_7D8B)
  {
    var k := BreakdownFromGroup(filtered, categories, i);
    var ks := DistinctKeys(filtered, CategoryIdOf);
    assert ks[k] in ks;
    var j :| 0 <= j < |filtered| && CategoryIdOf(filtered[j]) == ks[k];
    ItemsWithKeyNonEmpty(filtered, CategoryIdOf, j);
  }

  /** The unsorted stats add up, amounts and counts, to the group totals. */
  lemma GroupStatsSums(gs: seq<Group<int, Transaction>>, categories: map<int, Category>, total: int)
    ensures SumBy(GroupStats(gs, categories, total), StatAmount) == GroupTotals(gs, Amount)
    ensures SumBy(GroupStats(gs, categories, total), StatCount) == GroupTotals(gs, One)
  {
    var u := GroupStats(gs, categories, total);
    forall i | 0 <= i < |u|
      ensures StatAmount(u[i]) == SumBy(gs[i].items, Amount)
      ensures StatCount(u[i]) == SumBy(gs[i].items, One)
    {
      GroupStatsAt(gs, categories, total, i);
      SumOfOnes(gs[i].items);
    }
    SumMatchesGroups(u, gs, StatAmount, Amount);
    SumMatchesGroups(u, gs, StatCount, One);
  }

  /** The stat amounts add up to the total, and the stat counts to the number of counted rows. */
  lemma StatsAddUp(filtered: seq<Transaction>, categories: map<int, Category>)
    ensures SumBy(Breakdown(filtered, categories), StatAmount) == SumBy(filtered, Amount)
    ensures SumBy(Breakdown(filtered, categories), StatCount) == |filtered|
  {
    var ks := DistinctKeys(filtered, CategoryIdOf);
    var gs := GroupBy(filtered, CategoryIdOf);
    var u := GroupStats(gs, categories, SumBy(filtered, Amount));
    var r := Breakdown(filtered, categories);
    SumByPermutation(r, u, StatAmount);
    SumByPermutation(r, u, StatCount);
    GroupStatsSums(gs, categories, SumBy(filtered, Amount));
    GroupTotalsSum(ks, filtered, CategoryIdOf, Amount);
    GroupTotalsSum(ks, filtered, CategoryIdOf, One);
    SumOfOnes(filtered);
  }

  lemma LargerAmountIsStrictOrder()
    ensures StrictOrder(LargerAmount)
  {
  }

  /** The stats come with non-increasing amounts. */
  lemma StatsDescending(filtered: seq<Transaction>, categories: map<int, Category>)
    ensures var r := Breakdown(filtered, categories);
      forall i, j :: 0 <= i < j < |r| ==> r[i].amount >= r[j].amount
  {
    LargerAmountIsStrictOrder();
    SortIsSorted(GroupStats(GroupBy(filtered, CategoryIdOf), categories, SumBy(filtered, Amount)), LargerAmount);
  }

  /** With a zero total every percentage is 0. */
  lemma ZeroTotalZeroPercent(filtered: seq<Transaction>, categories: map<int, Category>)
    requires SumBy(filtered, Amount) == 0
    ensures forall s :: s in Breakdown(filtered, categories) ==> s.percentage == 0.0
  {
    var r := Breakdown(filtered, categories);
    forall s | s in r ensures s.percentage == 0.0 {
      var i :| 0 <= i < |r| && r[i] == s;
      StatIsItsCategory(filtered, categories, i);
    }
  }

  /** The load's total is the sum over the counted rows, and the stats add up to it. */
  lemma ReportAddsUp(rows: seq<Transaction>, cats: seq<Category>, selected: LocalDate, yearMode: bool, isIncome: bool)
    ensures var d := ReportOf(rows, cats, selected, yearMode, isIncome);
      && d.total == SumBy(PeriodRows(rows, selected, yearMode, isIncome), Amount)
      && SumBy(d.stats, StatAmount) == d.total
      && SumBy(d.stats, StatCount) == |PeriodRows(rows, selected, yearMode, isIncome)|
  {
    StatsAddUp(PeriodRows(rows, selected, yearMode, isIncome), CategoryMap(CategoryDao.AllCategories(cats)));
  }

  // ---------------------------------------------------------- view-model

  /** The screen state (`ReportUiState`) and its handlers. */
  class ReportViewModel {
    var selectedMonth: LocalDate
    var isIncome: bool
    var isYearMode: bool
    var categoryStats: seq<CategoryStat>
    var total: int
    var isLoading: bool
    var error: Option<string>

    /**
     * The initial state, the current month of `today` with expenses, followed
     * by the `init` load; `store` says whether the store reads complete.
     */
    constructor(today: LocalDate, rows: seq<Transaction>, cats: seq<Category>, store: Outcome)
      ensures selectedMonth == today && !isIncome && !isYearMode && !isLoading
      ensures store.Completes? ==>
        var d := ReportOf(rows, cats, today, false, false);
        categoryStats == d.stats && total == d.total && error == None
      ensures store.Throws? ==> categoryStats == [] && total == 0 && error == store.message
    {
      selectedMonth, isIncome, isYearMode := today, false, false;
      categoryStats, total, isLoading, error := [], 0, false, None;
      new;
      LoadData(rows, cats, store);
    }

    /**
     * `loadData()`: on success the stats and total of the current period and
     * type, `error` left as it was; on an exception the message, the old
     * results kept. Either way the load ends with `isLoading = false`.
     */
    method LoadData(rows: seq<Transaction>, cats: seq<Category>, store: Outcome)
      modifies this
      ensures selectedMonth == old(selectedMonth) && isIncome == old(isIncome) && isYearMode == old(isYearMode)
      ensures !isLoading
      ensures store.Completes? ==>
        var d := ReportOf(rows, cats, selectedMonth, isYearMode, isIncome);
        categoryStats == d.stats && total == d.total && error == old(error)
      ensures store.Throws? ==> categoryStats == old(categoryStats) && total == old(total) && error == store.message
    {
      isLoading := true;
      if store.Throws? {
        isLoading, error := false, store.message;
      } else {
        Show(ReportOf(rows, cats, selectedMonth, isYearMode, isIncome));
      }
    }

    /** The end of a successful load: the results shown, loading over. */
    method Show(d: ReportData)
      modifies this
      ensures categoryStats == d.stats && total == d.total && !isLoading
      ensures selectedMonth == old(selectedMonth) && isIncome == old(isIncome) && isYearMode == old(isYearMode)
      ensures error == old(error)
    {
      categoryStats, total, isLoading := d.stats, d.total, false;
    }

    /** `onTypeChanged(isIncome)`: switch the type, keep the period, reload. */
    method OnTypeChanged(income: bool, rows: seq<Transaction>, cats: seq<Category>, store: Outcome)
      modifies this
      ensures isIncome == income && selectedMonth == old(selectedMonth) && isYearMode == old(isYearMode)
      ensures !isLoading
      ensures store.Completes? ==>
        var d := ReportOf(rows, cats, selectedMonth, isYearMode, income);
        categoryStats == d.stats && total == d.total && error == old(error)
      ensures store.Throws? ==> categoryStats == old(categoryStats) && total == old(total) && error == store.message
    {
      isIncome := income;
      LoadData(rows, cats, store);
    }

    /** `onMonthChanged(month)`: month mode on that month, reload. */
    method OnMonthChanged(month: LocalDate, rows: seq<Transaction>, cats: seq<Category>, store: Outcome)
      modifies this
      ensures selectedMonth == month && !isYearMode && isIncome == old(isIncome)
      ensures !isLoading
      ensures store.Completes? ==>
        var d := ReportOf(rows, cats, month, false, isIncome);
        categoryStats == d.stats && total == d.total && error == old(error)
      ensures store.Throws? ==> categoryStats == old(categoryStats) && total == old(total) && error == store.message
    {
      Select(month, false);
      LoadData(rows, cats, store);
    }

    /** `onYearChanged(year)`: year mode, the selected date becoming 1 January of that year, reload. */
    method OnYearChanged(year: int, rows: seq<Transaction>, cats: seq<Category>, store: Outcome)
      requires MinYear <= year <= MaxYear
      modifies this
      ensures selectedMonth == Date(year, 1, 1) && isYearMode && isIncome == old(isIncome)
      ensures !isLoading
      ensures store.Completes? ==>
        var d := ReportOf(rows, cats, selectedMonth, true, isIncome);
        categoryStats == d.stats && total == d.total && error == old(error)
      ensures store.Throws? ==> categoryStats == old(categoryStats) && total == old(total) && error == store.message
    {
      Select(FirstOfYear(year), true);
      LoadData(rows, cats, store);
    }

    /** The period chosen, everything else as it was. */
    method Select(month: LocalDate, yearMode: bool)
      modifies this
      ensures selectedMonth == month && isYearMode == yearMode && isIncome == old(isIncome)
      ensures categoryStats == old(categoryStats) && total == old(total) && error == old(error)
    {
      selectedMonth, isYearMode := month, yearMode;
    }
  }
}
