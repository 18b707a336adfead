/**
 * `TransactionDetailViewModel`: a month's transactions grouped by date,
 * latest first, each day with its income and expense totals, and the month's
 * balance computed from those groups.
 */
module TransactionDetail {
  import opened Wrappers
  import opened Seqs
  import opened Grouping
  import opened Dates
  import opened Entities
  import opened Views
  import Dao = TransactionDao
  import CategoryDao
  import Repository = TransactionRepository

  /** `TransactionItemUi`: colour and icon are the category's texts, null without a category. */
  datatype ItemUi = ItemUi(
    id: int,
    categoryName: string,
    note: string,
    amount: int,
    isIncome: bool,
    categoryColor: Option<string>,
    categoryIcon: Option<string>)

  /** `DayTransactionGroup`. */
  datatype DayGroup = DayGroup(date: LocalDate, totalIncome: int, totalExpense: int, transactions: seq<ItemUi>)

  const OtherName: string := "Khác"
  const LoadFailed: string := "Lỗi tải dữ liệu"

  /** An item resolves its category through the map, or shows "Khác" with no colour and no icon. */
  function ItemOf(t: Transaction, categories: map<int, Category>): (item: ItemUi)
    ensures item.id == t.id && item.note == t.note && item.amount == t.amount
    ensures item.isIncome <==> t.ttype == Income
    ensures t.categoryId in categories ==>
      var c := categories[t.categoryId];
      item.categoryName == c.name && item.categoryColor == Some(c.color) && item.categoryIcon == Some(c.icon)
    ensures t.categoryId !in categories ==>
      item.categoryName == OtherName && item.categoryColor == None && item.categoryIcon == None
  {
    var category := Lookup(categories, t.categoryId);
    ItemUi(t.id, if category.Some? then category.value.name else OtherName, t.note, t.amount,
           t.ttype == Income,
           if category.Some? then Some(category.value.color) else None,
           if category.Some? then Some(category.value.icon) else None)
  }

  /** What the day's `map` block yields: the income and the other amounts summed, one item per row. */
  function DayGroupOf(g: Group<LocalDate, Transaction>, categories: map<int, Category>): DayGroup
  {
    DayGroup(g.key, SumBy(g.items, IncomeAmount), SumBy(g.items, ExpenseAmount),
             MapSeq(g.items, t => ItemOf(t, categories)))
  }

  function DayIncomeTotal(d: DayGroup): int { d.totalIncome }

  function DayExpenseTotal(d: DayGroup): int { d.totalExpense }

  /** The rows grouped by date, latest first, each day through `DayGroupOf`. */
  function GroupsOf(txs: seq<Transaction>, categories: map<int, Category>): (r: seq<DayGroup>)
    ensures var gs := ByDateDescending(txs);
      |r| == |gs| && forall i :: 0 <= i < |gs| ==> r[i] == DayGroupOf(gs[i], categories)
  {
    MapSeq(ByDateDescending(txs), g => DayGroupOf(g, categories))
  }

  /** The groups of the month's rows (`getTransactionsByMonthOnce`) with every category. */
  function MonthGroups(rows: seq<Transaction>, cats: seq<Category>, month: LocalDate): seq<DayGroup>
  {
    GroupsOf(Repository.TransactionsByMonthOnce(rows, month), CategoryMap(CategoryDao.AllCategories(cats)))
  }

  /**
   * The day's `map` block as the source runs it: two running totals, the row's
   * amount added to the income when it is `INCOME` and to the expense
   * otherwise, while each row becomes its item.
   */
  method BuildDayGroup(g: Group<LocalDate, Transaction>, categories: map<int, Category>) returns (day: DayGroup)
    ensures day == DayGroupOf(g, categories)
  {
    var totalIncome, totalExpense := 0, 0;
    var items: seq<ItemUi> := [];
    var i := 0;
    while i < |g.items|
      invariant 0 <= i <= |g.items|
      invariant totalIncome == SumBy(g.items[..i], IncomeAmount)
      invariant totalExpense == SumBy(g.items[..i], ExpenseAmount)
      invariant |items| == i && forall j :: 0 <= j < i ==> items[j] == ItemOf(g.items[j], categories)
    {
      var tx := g.items[i];
      SumByAppend(g.items[..i], [tx], IncomeAmount);
      SumByAppend(g.items[..i], [tx], ExpenseAmount);
      assert g.items[..i + 1] == g.items[..i] + [tx];
      var isIncome := tx.ttype == TransactionType.Income;
      if isIncome {
        totalIncome := totalIncome + tx.amount;
      } else {
        totalExpense := totalExpense + tx.amount;
      }
      items := items + [ItemOf(tx, categories)];
      i := i + 1;
    }
    assert g.items[..i] == g.items;
    day := DayGroup(g.key, totalIncome, totalExpense, items);
  }

  // ------------------------------------------------------------- lemmas

  /** The month's rows, in query order or in key order, are the same rows. */
  lemma MonthRowsAgree(rows: seq<Transaction>, month: LocalDate)
    ensures multiset(Repository.TransactionsByMonthOnce(rows, month)) == multiset(Repository.MonthRows(rows, month))
  {
    Repository.RangeStylesAgree(rows, month);
    var start, end := Repository.MonthStart(month), Repository.MonthEnd(month);
    var a := Repository.TransactionsByMonthOnce(rows, month);
    var b := Repository.MonthRows(rows, month);
    forall t ensures multiset(a)[t] == multiset(b)[t] {
      FilterMultiset(rows, t => Dao.InRange(t, start, end), t);
    }
  }

  /**
   * The day groups come strictly latest first, each non-empty, holding the
   * rows of its date, one item per row in input order, with their sums.
   */
  lemma GroupsShape(txs: seq<Transaction>, categories: map<int, Category>)
    ensures var r := GroupsOf(txs, categories);
      && (forall i, j :: 0 <= i < j < |r| ==> Before(r[j].date, r[i].date))
      && (forall i :: 0 <= i < |r| ==>
            |r[i].transactions| == |ItemsWithKey(txs, DateOf, r[i].date)| > 0
            && r[i].totalIncome == SumBy(ItemsWithKey(txs, DateOf, r[i].date), IncomeAmount)
            && r[i].totalExpense == SumBy(ItemsWithKey(txs, DateOf, r[i].date), ExpenseAmount))
  {
    ByDateDescendingOrder(txs);
    ByDateDescendingGroups(txs);
  }

  /** Every date with a transaction has its group. */
  lemma GroupsCover(txs: seq<Transaction>, categories: map<int, Category>)
    ensures var r := GroupsOf(txs, categories);
      forall t :: t in txs ==> exists i :: 0 <= i < |r| && r[i].date == t.date
  {
    var gs := ByDateDescending(txs);
    var r := GroupsOf(txs, categories);
    ByDateDescendingCovers(txs);
    forall t | t in txs ensures exists i :: 0 <= i < |r| && r[i].date == t.date {
      var i :| 0 <= i < |gs| && gs[i].key == t.date;
      assert r[i].date == gs[i].key;
    }
  }

  /** The day group at `i` sums the rows of the date group at `i`. */
  lemma GroupTotalsAt(txs: seq<Transaction>, categories: map<int, Category>, i: int)
    requires 0 <= i < |ByDateDescending(txs)|
    ensures var r, gs := GroupsOf(txs, categories), ByDateDescending(txs);
      && DayIncomeTotal(r[i]) == SumBy(gs[i].items, IncomeAmount)
      && DayExpenseTotal(r[i]) == SumBy(gs[i].items, ExpenseAmount)
  {
  }

  /** The income summed over the day groups is the income of the rows. */
  lemma GroupsIncome(txs: seq<Transaction>, categories: map<int, Category>)
    ensures SumBy(GroupsOf(txs, categories), DayIncomeTotal) == SumBy(txs, IncomeAmount)
  {
    var r, gs := GroupsOf(txs, categories), ByDateDescending(txs);
    forall i | 0 <= i < |r| ensures DayIncomeTotal(r[i]) == SumBy(gs[i].items, IncomeAmount) {
      GroupTotalsAt(txs, categories, i);
    }
    SumMatchesGroups(r, gs, DayIncomeTotal, IncomeAmount);
    ByDateDescendingPartition(txs);
  }

  /** The expense summed over the day groups is the expense of the rows. */
  lemma GroupsExpense(txs: seq<Transaction>, categories: map<int, Category>)
    ensures SumBy(GroupsOf(txs, categories), DayExpenseTotal) == SumBy(txs, ExpenseAmount)
  {
    var r, gs := GroupsOf(txs, categories), ByDateDescending(txs);
    forall i | 0 <= i < |r| ensures DayExpenseTotal(r[i]) == SumBy(gs[i].items, ExpenseAmount) {
      GroupTotalsAt(txs, categories, i);
    }
    SumMatchesGroups(r, gs, DayExpenseTotal, ExpenseAmount);
    ByDateDescendingPartition(txs);
  }

  /** The month's sums in query order are what the `SUM` queries compute. */
  lemma MonthSumsAreQueries(rows: seq<Transaction>, month: LocalDate)
    ensures var txs := Repository.TransactionsByMonthOnce(rows, month);
      && SumBy(txs, IncomeAmount) == Repository.TotalIncomeByMonth(rows, month)
      && SumBy(txs, ExpenseAmount) == Repository.TotalExpenseByMonth(rows, month)
  {
    var txs := Repository.TransactionsByMonthOnce(rows, month);
    var kept := Repository.MonthRows(rows, month);
    MonthRowsAgree(rows, month);
    SumByPermutation(txs, kept, IncomeAmount);
    SumByPermutation(txs, kept, ExpenseAmount);
    Dao.TotalIncomeIsSum(rows, Repository.MonthStart(month), Repository.MonthEnd(month));
    Dao.TotalExpenseIsSum(rows, Repository.MonthStart(month), Repository.MonthEnd(month));
  }

  /**
   * The totals summed over the day groups are the month's income and expense
   * as the `SUM` queries compute them, so the balance is `getBalanceByMonth`.
   */
  lemma MonthGroupsTotals(rows: seq<Transaction>, cats: seq<Category>, month: LocalDate)
    ensures var r := MonthGroups(rows, cats, month);
      && SumBy(r, DayIncomeTotal) == Repository.TotalIncomeByMonth(rows, month)
      && SumBy(r, DayExpenseTotal) == Repository.TotalExpenseByMonth(rows, month)
      && SumBy(r, DayIncomeTotal) - SumBy(r, DayExpenseTotal) == Repository.BalanceByMonth(rows, month)
  {
    var txs := Repository.TransactionsByMonthOnce(rows, month);
    var categories := CategoryMap(CategoryDao.AllCategories(cats));
    GroupsIncome(txs, categories);
    GroupsExpense(txs, categories);
    MonthSumsAreQueries(rows, month);
  }

  /** The `map` over the date groups, one day at a time. */
  method BuildDayGroups(days: seq<Group<LocalDate, Transaction>>, categories: map<int, Category>)
    returns (grouped: seq<DayGroup>)
    ensures |grouped| == |days| && forall j :: 0 <= j < |days| ==> grouped[j] == DayGroupOf(days[j], categories)
  {
    grouped := [];
    var i := 0;
    while i < |days|
      invariant 0 <= i <= |days|
      invariant |grouped| == i && forall j :: 0 <= j < i ==> grouped[j] == DayGroupOf(days[j], categories)
    {
      var day := BuildDayGroup(days[i], categories);
      grouped := grouped + [day];
      i := i + 1;
    }
  }

  /** The `groupBy`/`toSortedMap`/`map` pipeline of `loadDataForMonth`. */
  method GroupByDay(txs: seq<Transaction>, categories: map<int, Category>) returns (grouped: seq<DayGroup>)
    ensures grouped == GroupsOf(txs, categories)
  {
    var days := ByDateDescending(txs);
    grouped := BuildDayGroups(days, categories);
  }

  // ---------------------------------------------------------- view-model

  /** `TransactionDetailUiState` and its loads. */
  class TransactionDetailViewModel {
    var selectedMonth: LocalDate
    var balance: int
    var totalIncome: int
    var totalExpense: int
    var dailyGroups: seq<DayGroup>
    var isLoading: bool
    var error: Option<string>

    /** The state's defaults with `selectedMonth` today, then `init`'s load of that month. */
    constructor(today: LocalDate, rows: seq<Transaction>, cats: seq<Category>, store: Outcome)
      ensures selectedMonth == today && !isLoading
      ensures store.Completes? ==>
        && dailyGroups == MonthGroups(rows, cats, today)
        && totalIncome == SumBy(dailyGroups, DayIncomeTotal) && totalExpense == SumBy(dailyGroups, DayExpenseTotal)
        && balance == totalIncome - totalExpense && error == None
      ensures store.Throws? ==>
        && dailyGroups == [] && balance == 0 && totalIncome == 0 && totalExpense == 0
        && error == Some(store.message.GetOr(LoadFailed))
    {
      selectedMonth, balance, totalIncome, totalExpense := today, 0, 0, 0;
      dailyGroups, isLoading, error := [], false, None;
      new;
      LoadDataForMonth(today, rows, cats, store);
    }

    /** `onMonthChanged(month)`: the month is selected, then loaded. */
    method OnMonthChanged(month: LocalDate, rows: seq<Transaction>, cats: seq<Category>, store: Outcome)
      modifies this
      ensures selectedMonth == month && !isLoading
      ensures store.Completes? ==>
        && dailyGroups == MonthGroups(rows, cats, month)
        && totalIncome == SumBy(dailyGroups, DayIncomeTotal) && totalExpense == SumBy(dailyGroups, DayExpenseTotal)
        && balance == totalIncome - totalExpense && error == None
      ensures store.Throws? ==>
        && dailyGroups == old(dailyGroups) && balance == old(balance)
        && totalIncome == old(totalIncome) && totalExpense == old(totalExpense)
        && error == Some(store.message.GetOr(LoadFailed))
    {
      selectedMonth := month;
      LoadDataForMonth(month, rows, cats, store);
    }

    /**
     * `loadDataForMonth(month)`: the error is cleared first. When the reads
     * (`store`) complete, the groups are built day by day and the totals are
     * their sums, the balance income minus expense; when they throw, the
     * results are kept and the error is the message, or "Lỗi tải dữ liệu"
     * when it has none.
     */
    method LoadDataForMonth(month: LocalDate, rows: seq<Transaction>, cats: seq<Category>, store: Outcome)
      modifies this
      ensures selectedMonth == old(selectedMonth) && !isLoading
      ensures store.Completes? ==>
        && dailyGroups == MonthGroups(rows, cats, month)
        && totalIncome == SumBy(dailyGroups, DayIncomeTotal) && totalExpense == SumBy(dailyGroups, DayExpenseTotal)
        && balance == totalIncome - totalExpense && error == None
      ensures store.Throws? ==>
        && dailyGroups == old(dailyGroups) && balance == old(balance)
        && totalIncome == old(totalIncome) && totalExpense == old(totalExpense)
        && error == Some(store.message.GetOr(LoadFailed))
    {
      isLoading, error := true, None;
      if store.Throws? {
        isLoading, error := false, Some(store.message.GetOr(LoadFailed));
        return;
      }
      var transactions := Repository.TransactionsByMonthOnce(rows, month);
      var categoryMap := CategoryMap(CategoryDao.AllCategories(cats));
      var grouped := GroupByDay(transactions, categoryMap);
      Show(grouped);
    }

    /** The successful `update`: the groups, their summed totals and the balance, the error cleared. */
    method Show(grouped: seq<DayGroup>)
      modifies this
      ensures selectedMonth == old(selectedMonth) && !isLoading
      ensures dailyGroups == grouped && error == None
      ensures totalIncome == SumBy(grouped, DayIncomeTotal) && totalExpense == SumBy(grouped, DayExpenseTotal)
      ensures balance == totalIncome - totalExpense
    {
      var income, expense := SumBy(grouped, DayIncomeTotal), SumBy(grouped, DayExpenseTotal);
      balance, totalIncome, totalExpense := income - expense, income, expense;
      dailyGroups, isLoading, error := grouped, false, None;
    }
  }
}
