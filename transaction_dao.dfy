/**
 * What the queries of `TransactionDao` return, as functions of the table's
 * rows (kept in key order, see `Store`). The `date` column holds the text
 * `FormatDate` writes, so range tests, `ORDER BY date` and `GROUP BY date`
 * compare those texts; for four-digit years that is date order.
 */
module TransactionDao {
  import opened Wrappers
  import opened Seqs
  import opened Sorting
  import opened Grouping
  import opened Text
  import opened Dates
  import opened Entities
  import opened Converters
  import opened Store

  function WithTransactionId(t: Transaction, k: int): Transaction { t.(id := k) }

  lemma TransactionKey()
    ensures KeyField(TransactionId, WithTransactionId)
  {
  }

  /** The text in the `date` column. */
  function Stored(t: Transaction): string { FormatDate(t.date) }

  /** `date >= :startDate AND date <= :endDate`, on the stored texts. */
  predicate InRange(t: Transaction, start: LocalDate, end: LocalDate)
  {
    !LexLess(Stored(t), FormatDate(start)) && !LexLess(FormatDate(end), Stored(t))
  }

  /** `ORDER BY date DESC, createdAt DESC`: `a` is listed before `b`. */
  predicate NewerFirst(a: Transaction, b: Transaction)
  {
    LexLess(Stored(b), Stored(a)) || (Stored(a) == Stored(b) && a.createdAt > b.createdAt)
  }

  /** `ORDER BY date ASC` on the `date` column. */
  predicate StoredLess(a: LocalDate, b: LocalDate)
  {
    LexLess(FormatDate(a), FormatDate(b))
  }

  lemma NewerFirstIsStrictOrder()
    ensures StrictOrder(NewerFirst)
  {
    forall a: Transaction ensures !NewerFirst(a, a) {
      LexIrreflexive(Stored(a));
    }
    forall a: Transaction, b: Transaction, c: Transaction | NewerFirst(a, b) && NewerFirst(b, c)
      ensures NewerFirst(a, c)
    {
      if LexLess(Stored(b), Stored(a)) && LexLess(Stored(c), Stored(b)) {
        LexTransitive(Stored(c), Stored(b), Stored(a));
      }
    }
  }

  lemma StoredLessIsStrictTotalOrder()
    ensures StrictOrder(StoredLess) && Total(StoredLess)
  {
    forall a: LocalDate ensures !StoredLess(a, a) {
      LexIrreflexive(FormatDate(a));
    }
    forall a: LocalDate, b: LocalDate, c: LocalDate | StoredLess(a, b) && StoredLess(b, c)
      ensures StoredLess(a, c)
    {
      LexTransitive(FormatDate(a), FormatDate(b), FormatDate(c));
    }
    forall a: LocalDate, b: LocalDate | a != b ensures StoredLess(a, b) || StoredLess(b, a) {
      if FormatDate(a) == FormatDate(b) {
        FormatDateInjective(a, b);
      }
      LexTotal(FormatDate(a), FormatDate(b));
    }
  }

  // ------------------------------------------------------------- queries

  /** `getAllTransactions`: every row, newest date first, then newest creation first. */
  function AllTransactions(rows: seq<Transaction>): (r: seq<Transaction>)
    ensures multiset(r) == multiset(rows)
    ensures SortedBy(r, NewerFirst)
  {
    NewerFirstIsStrictOrder();
    SortIsSorted(rows, NewerFirst);
    SortBy(rows, NewerFirst)
  }

  /** The rows the `WHERE date >= … AND date <= …` clause lets through, in key order. */
  function InRangeRows(rows: seq<Transaction>, start: LocalDate, end: LocalDate): seq<Transaction>
  {
    Filter(rows, t => InRange(t, start, end))
  }

  /** `getTransactionsByMonth(start, end)`: exactly the rows in the range, each as often as stored, newest first. */
  function TransactionsByMonth(rows: seq<Transaction>, start: LocalDate, end: LocalDate): (r: seq<Transaction>)
    ensures forall t :: multiset(r)[t] == if InRange(t, start, end) then multiset(rows)[t] else 0
    ensures SortedBy(r, NewerFirst)
  {
    var kept := InRangeRows(rows, start, end);
    NewerFirstIsStrictOrder();
    SortIsSorted(kept, NewerFirst);
    forall t ensures multiset(kept)[t] == if InRange(t, start, end) then multiset(rows)[t] else 0 {
      FilterMultiset(rows, t => InRange(t, start, end), t);
    }
    SortBy(kept, NewerFirst)
  }

  /** `getTransactionById(id)`. */
  function TransactionById(rows: seq<Transaction>, id: int): Option<Transaction>
  {
    FindById(rows, TransactionId, id)
  }

  /** A row of `getTransactionWithCategoryById`: the transaction and its category's columns, null without one. */
  datatype TransactionWithCategory = TransactionWithCategory(
    transaction: Transaction,
    categoryName: Option<string>,
    categoryColor: Option<string>,
    categoryIcon: Option<string>)

  /**
   * `getTransactionWithCategoryById(id)`: the row with that key joined, as a
   * left join, with the category its `categoryId` names, or null.
   */
  function TransactionWithCategoryById(rows: seq<Transaction>, cats: seq<Category>, id: int)
    : (r: Option<TransactionWithCategory>)
    ensures r.Some? <==> TransactionById(rows, id).Some?
    ensures r.Some? ==> r.value.transaction == TransactionById(rows, id).value
    ensures r.Some? ==>
      var c := FindById(cats, CategoryId, r.value.transaction.categoryId);
      && (c.Some? ==> r.value.categoryName == Some(c.value.name) && r.value.categoryColor == Some(c.value.color)
                        && r.value.categoryIcon == Some(c.value.icon))
      && (c.None? ==> r.value.categoryName == None && r.value.categoryColor == None && r.value.categoryIcon == None)
  {
    match TransactionById(rows, id)
    case None => None
    case Some(t) =>
      match FindById(cats, CategoryId, t.categoryId)
      case None => Some(TransactionWithCategory(t, None, None, None))
      case Some(c) => Some(TransactionWithCategory(t, Some(c.name), Some(c.color), Some(c.icon)))
  }

  /** SQL `SUM(column)`: NULL over no rows. */
  function SqlSum<T>(rows: seq<T>, column: T -> int): (r: Option<int>)
    ensures r.None? <==> rows == []
    ensures r.Some? ==> r.value == SumBy(rows, column)
  {
    if rows == [] then None else Some(SumBy(rows, column))
  }

  /** `COALESCE(value, fallback)`. */
  function Coalesce(value: Option<int>, fallback: int): int
  {
    if value.Some? then value.value else fallback
  }

  /** `SELECT COALESCE(SUM(amount), 0) … WHERE type = 'INCOME' AND date >= … AND date <= …`. */
  function TotalIncomeByMonth(rows: seq<Transaction>, start: LocalDate, end: LocalDate): int
  {
    Coalesce(SqlSum(Filter(InRangeRows(rows, start, end), IsIncome), Amount), 0)
  }

  /** The same for `type = 'EXPENSE'`. */
  function TotalExpenseByMonth(rows: seq<Transaction>, start: LocalDate, end: LocalDate): int
  {
    Coalesce(SqlSum(Filter(InRangeRows(rows, start, end), IsExpense), Amount), 0)
  }

  /** One result row of the `GROUP BY date` query. */
  function DailyRow(g: Group<LocalDate, Transaction>): (d: DailyTransaction)
    ensures d.date == g.key
  {
    DailyTransaction(g.key, SumBy(g.items, IncomeAmount), SumBy(g.items, ExpenseAmount))
  }

  function DailyDate(d: DailyTransaction): LocalDate { d.date }

  function DailyIncome(d: DailyTransaction): int { d.totalIncome }

  function DailyExpense(d: DailyTransaction): int { d.totalExpense }

  /** The groups of `getDailyTransactionsByMonth`: rows in range by date, dates in ascending stored order. */
  function DailyGroups(rows: seq<Transaction>, start: LocalDate, end: LocalDate): seq<Group<LocalDate, Transaction>>
  {
    GroupBySorted(InRangeRows(rows, start, end), DateOf, StoredLess)
  }

  /** `getDailyTransactionsByMonth(start, end)`. */
  function DailyTransactionsByMonth(rows: seq<Transaction>, start: LocalDate, end: LocalDate): seq<DailyTransaction>
  {
    MapSeq(DailyGroups(rows, start, end), DailyRow)
  }

  // -------------------------------------------------------------- lemmas

  /**
   * A date outside years 0..9999 is stored with a leading '+' or '-', which
   * sorts below every digit: it never lies in a range whose start has a four-digit year.
   */
  lemma InRangeHasFourDigitYear(t: Transaction, start: LocalDate, end: LocalDate)
    requires 0 <= start.year <= 9999
    requires InRange(t, start, end)
    ensures 0 <= t.date.year <= 9999
  {
    var s, a := Stored(t), FormatDate(start);
    assert IsDigit(a[0]) by {
      assert a[..4][0] == a[0];
    }
  }

  /** For ranges with four-digit years the text range is the calendar range, both ends included. */
  lemma InRangeIsChronological(t: Transaction, start: LocalDate, end: LocalDate)
    requires 0 <= start.year <= 9999 && 0 <= end.year <= 9999
    ensures InRange(t, start, end) <==> !Before(t.date, start) && !Before(end, t.date)
  {
    if InRange(t, start, end) {
      InRangeHasFourDigitYear(t, start, end);
    }
    if 0 <= t.date.year <= 9999 {
      EncodingOrder(t.date, start);
      EncodingOrder(end, t.date);
    }
  }

  /** `getTransactionById` gives the stored row with that key, or null when there is none. */
  lemma TransactionByIdFinds(rows: seq<Transaction>, id: int)
    requires IdsAscending(rows, TransactionId)
    ensures TransactionById(rows, id).Some? <==> exists i :: 0 <= i < |rows| && rows[i].id == id
    ensures forall i :: 0 <= i < |rows| && rows[i].id == id ==> TransactionById(rows, id) == Some(rows[i])
  {
    forall i | 0 <= i < |rows| && rows[i].id == id ensures TransactionById(rows, id) == Some(rows[i]) {
      FindStored(rows, TransactionId, i);
    }
  }

  /** The income total is the sum of the income amounts in range; with none it is 0, not NULL. */
  lemma {:induction false} TotalIncomeIsSum(rows: seq<Transaction>, start: LocalDate, end: LocalDate)
    ensures TotalIncomeByMonth(rows, start, end) == SumBy(InRangeRows(rows, start, end), IncomeAmount)
    ensures (forall t :: t in rows && InRange(t, start, end) ==> !IsIncome(t)) ==> TotalIncomeByMonth(rows, start, end) == 0
  {
    var kept := InRangeRows(rows, start, end);
    SumFilter(kept, IsIncome, Amount, IncomeAmount);
    if forall t :: t in rows && InRange(t, start, end) ==> !IsIncome(t) {
      assert Filter(kept, IsIncome) == [];
    }
  }

  lemma {:induction false} TotalExpenseIsSum(rows: seq<Transaction>, start: LocalDate, end: LocalDate)
    ensures TotalExpenseByMonth(rows, start, end) == SumBy(InRangeRows(rows, start, end), ExpenseAmount)
    ensures (forall t :: t in rows && InRange(t, start, end) ==> !IsExpense(t)) ==> TotalExpenseByMonth(rows, start, end) == 0
  {
    var kept := InRangeRows(rows, start, end);
    SumFilter(kept, IsExpense, Amount, ExpenseAmount);
    if forall t :: t in rows && InRange(t, start, end) ==> !IsExpense(t) {
      assert Filter(kept, IsExpense) == [];
    }
  }

  /** The dates of the daily rows are the sorted distinct dates of the rows in range. */
  lemma DailyDatesAreKeys(rows: seq<Transaction>, start: LocalDate, end: LocalDate)
    ensures MapSeq(DailyTransactionsByMonth(rows, start, end), DailyDate)
            == SortBy(DistinctKeys(InRangeRows(rows, start, end), DateOf), StoredLess)
  {
  }

  /** The daily rows list each date present in the range once, and dates present only. */
  lemma DailyDatesExact(rows: seq<Transaction>, start: LocalDate, end: LocalDate)
    ensures var ds := MapSeq(DailyTransactionsByMonth(rows, start, end), DailyDate);
      && Distinct(ds)
      && (forall t :: t in rows && InRange(t, start, end) ==> t.date in ds)
      && (forall d :: d in ds ==> exists t :: t in rows && InRange(t, start, end) && t.date == d)
  {
    var kept := InRangeRows(rows, start, end);
    var ks := SortBy(DistinctKeys(kept, DateOf), StoredLess);
    assert MapSeq(DailyTransactionsByMonth(rows, start, end), DailyDate) == ks by {
      DailyDatesAreKeys(rows, start, end);
    }
    assert Distinct(ks) && (forall t :: t in kept ==> t.date in ks)
        && (forall d :: d in ks ==> exists t :: t in kept && t.date == d) by {
      SortedKeys(kept, DateOf, StoredLess);
      ExactKeysMembers(ks, kept, DateOf);
    }
    assert forall t :: t in kept <==> t in rows && InRange(t, start, end);
  }

  /** The daily rows come in strictly ascending stored order, which for four-digit years is date order. */
  lemma DailyAscending(rows: seq<Transaction>, start: LocalDate, end: LocalDate)
    ensures var r := DailyTransactionsByMonth(rows, start, end);
      forall i, j :: 0 <= i < j < |r| ==> StoredLess(r[i].date, r[j].date)
    ensures var r := DailyTransactionsByMonth(rows, start, end);
      forall i, j :: 0 <= i < j < |r| && 0 <= r[i].date.year <= 9999 && 0 <= r[j].date.year <= 9999
        ==> Before(r[i].date, r[j].date)
  {
    StoredLessIsStrictTotalOrder();
    SortedGroupsStrict(InRangeRows(rows, start, end), DateOf, StoredLess);
    var r := DailyTransactionsByMonth(rows, start, end);
    forall i, j | 0 <= i < j < |r| && 0 <= r[i].date.year <= 9999 && 0 <= r[j].date.year <= 9999
      ensures Before(r[i].date, r[j].date)
    {
      EncodingOrder(r[i].date, r[j].date);
    }
  }

  /** Each daily row carries the income and the expense sums of that date's rows in range. */
  lemma DailyRowSums(rows: seq<Transaction>, start: LocalDate, end: LocalDate, i: int)
    requires 0 <= i < |DailyTransactionsByMonth(rows, start, end)|
    ensures var r := DailyTransactionsByMonth(rows, start, end);
      var ofDay := ItemsWithKey(InRangeRows(rows, start, end), DateOf, r[i].date);
      && (forall t :: t in ofDay <==> t in rows && InRange(t, start, end) && t.date == r[i].date)
      && r[i].totalIncome == SumBy(ofDay, IncomeAmount)
      && r[i].totalExpense == SumBy(ofDay, ExpenseAmount)
  {
    var r := DailyTransactionsByMonth(rows, start, end);
    ItemsWithKeyMembers(InRangeRows(rows, start, end), DateOf, r[i].date);
  }

  /** A date without a daily row has no rows in the range. */
  lemma DailyAbsentDate(rows: seq<Transaction>, start: LocalDate, end: LocalDate, d: LocalDate)
    requires forall j :: 0 <= j < |DailyTransactionsByMonth(rows, start, end)| ==> DailyTransactionsByMonth(rows, start, end)[j].date != d
    ensures ItemsWithKey(InRangeRows(rows, start, end), DateOf, d) == []
  {
    var kept := InRangeRows(rows, start, end);
    var ds := MapSeq(DailyTransactionsByMonth(rows, start, end), DailyDate);
    DailyDatesExact(rows, start, end);
    forall i | 0 <= i < |kept| ensures DateOf(kept[i]) != d {
      assert kept[i] in kept;
      assert kept[i].date in ds;
    }
    ItemsWithKeyAbsent(kept, DateOf, d);
  }

  lemma {:induction false} DailySumIsGroupTotal(gs: seq<Group<LocalDate, Transaction>>)
    ensures SumBy(MapSeq(gs, DailyRow), DailyIncome) == GroupTotals(gs, IncomeAmount)
    ensures SumBy(MapSeq(gs, DailyRow), DailyExpense) == GroupTotals(gs, ExpenseAmount)
  {
    if gs != [] {
      DailySumIsGroupTotal(gs[1..]);
      assert MapSeq(gs, DailyRow)[1..] == MapSeq(gs[1..], DailyRow);
    }
  }

  /** Adding up the daily rows gives the month's income and expense totals. */
  lemma DailyRowsAddUp(rows: seq<Transaction>, start: LocalDate, end: LocalDate)
    ensures SumBy(DailyTransactionsByMonth(rows, start, end), DailyIncome) == TotalIncomeByMonth(rows, start, end)
    ensures SumBy(DailyTransactionsByMonth(rows, start, end), DailyExpense) == TotalExpenseByMonth(rows, start, end)
  {
    var kept := InRangeRows(rows, start, end);
    var ks := SortBy(DistinctKeys(kept, DateOf), StoredLess);
    SortedKeys(kept, DateOf, StoredLess);
    DailySumIsGroupTotal(DailyGroups(rows, start, end));
    GroupTotalsSum(ks, kept, DateOf, IncomeAmount);
    GroupTotalsSum(ks, kept, DateOf, ExpenseAmount);
    TotalIncomeIsSum(rows, start, end);
    TotalExpenseIsSum(rows, start, end);
  }

  /** After `deleteAll` every query is empty and both totals are 0. */
  lemma EmptyTable(start: LocalDate, end: LocalDate, id: int)
    ensures AllTransactions([]) == [] && TransactionsByMonth([], start, end) == []
    ensures TransactionById([], id) == None
    ensures TotalIncomeByMonth([], start, end) == 0 && TotalExpenseByMonth([], start, end) == 0
    ensures DailyTransactionsByMonth([], start, end) == []
  {
  }
}
