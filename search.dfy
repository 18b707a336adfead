/**
 * `SearchViewModel`: every transaction, or those passing a date window and a
 * case-insensitive text query, as items grouped by date, latest first.
 */
module Search {
  import opened Wrappers
  import opened Seqs
  import opened Sorting
  import opened Grouping
  import opened Text
  import opened Dates
  import opened Entities
  import opened Views
  import opened Store
  import Dao = TransactionDao
  import CategoryDao

  /** `SearchTransactionItem`. */
  datatype SearchItem = SearchItem(id: int, categoryName: string, amount: int, note: string, date: LocalDate,
                                   isIncome: bool)

  /** `SearchResultGroup(date, transactions)`: the `map` over `groupBy`'s entries only renames the fields. */
  type ResultGroup = Group<LocalDate, SearchItem>

  const Unknown: string := "Unknown"

  /** The item of a transaction: its category's name, or "Unknown" without one. */
  function ItemOf(t: Transaction, categories: map<int, Category>): (item: SearchItem)
    ensures item.id == t.id && item.amount == t.amount && item.note == t.note && item.date == t.date
    ensures item.isIncome <==> t.ttype == Income
    ensures item.categoryName == if t.categoryId in categories then categories[t.categoryId].name else Unknown
  {
    SearchItem(t.id, if t.categoryId in categories then categories[t.categoryId].name else Unknown,
               t.amount, t.note, t.date, t.ttype == Income)
  }

  function ItemDate(item: SearchItem): LocalDate { item.date }

  /** `sortedByDescending { it.date }` on the groups. */
  predicate GroupLater(a: ResultGroup, b: ResultGroup) { Later(a.key, b.key) }

  // ------------------------------------------------------------ filters

  /** The date window: "month" is today's month, "year" today's year, any other text everything. */
  predicate MatchesDateFilter(t: Transaction, filterType: string, today: LocalDate)
  {
    if filterType == "month" then t.date.year == today.year && t.date.month == today.month
    else if filterType == "year" then t.date.year == today.year
    else true
  }

  /** The name a query is matched against: the category's, lowercased, or "" without one. */
  function SearchName(t: Transaction, categories: map<int, Category>): string
  {
    if t.categoryId in categories then Lower(categories[t.categoryId].name) else ""
  }

  /** A blank query matches everything; any other matches a name or note holding it, ignoring case. */
  predicate MatchesQuery(t: Transaction, query: string, categories: map<int, Category>)
  {
    IsBlank(query)
    || Contains(SearchName(t, categories), Lower(query)) || Contains(Lower(t.note), Lower(query))
  }

  predicate Matches(t: Transaction, query: string, filterType: string, today: LocalDate, categories: map<int, Category>)
  {
    MatchesDateFilter(t, filterType, today) && MatchesQuery(t, query, categories)
  }

  // ------------------------------------------------------------ results

  /** The items of the transactions, in order. */
  function Items(txs: seq<Transaction>, categories: map<int, Category>): (items: seq<SearchItem>)
    ensures |items| == |txs| && forall i :: 0 <= i < |txs| ==> items[i] == ItemOf(txs[i], categories)
  {
    MapSeq(txs, t => ItemOf(t, categories))
  }

  /** `groupBy { it.date }`, then `sortedByDescending { it.date }`. */
  function Arrange(items: seq<SearchItem>): seq<ResultGroup>
  {
    SortBy(GroupBy(items, ItemDate), GroupLater)
  }

  /** `map` to items, `groupBy`, `sortedByDescending`. */
  function Results(txs: seq<Transaction>, categories: map<int, Category>): seq<ResultGroup>
  {
    Arrange(Items(txs, categories))
  }

  function Categories(cats: seq<Category>): map<int, Category>
  {
    CategoryMap(CategoryDao.AllCategories(cats))
  }

  /** `loadAllTransactions`: every row of `getAllTransactions`. */
  function InitialResults(rows: seq<Transaction>, cats: seq<Category>): seq<ResultGroup>
  {
    Results(Dao.AllTransactions(rows), Categories(cats))
  }

  /** `search(query, filterType)` with `today` for `LocalDate.now()`: the rows that pass both tests. */
  function SearchResults(rows: seq<Transaction>, cats: seq<Category>, query: string, filterType: string,
                         today: LocalDate): seq<ResultGroup>
  {
    var categories := Categories(cats);
    Results(Filter(Dao.AllTransactions(rows), t => Matches(t, query, filterType, today, categories)), categories)
  }

  // ------------------------------------------------------------- lemmas

  lemma GroupLaterOrdersByKey()
    ensures OrdersByKey(GroupLater, Later)
  {
  }

  /** Sorting the groups by date is grouping over the dates sorted latest first. */
  lemma ArrangeIsSortedGroups(items: seq<SearchItem>)
    ensures Arrange(items) == GroupBySorted(items, ItemDate, Later)
  {
    GroupLaterOrdersByKey();
    GroupByThenSort(items, ItemDate, Later, GroupLater);
  }

  /** Dates come strictly latest first, so no date has two groups. */
  lemma ArrangeOrder(items: seq<SearchItem>)
    ensures var r := Arrange(items);
      forall i, j :: 0 <= i < j < |r| ==> Before(r[j].key, r[i].key)
  {
    ArrangeIsSortedGroups(items);
    LaterIsStrictTotalOrder();
    SortedGroupsStrict(items, ItemDate, Later);
  }

  /** Every group is non-empty and holds the items of its date, in input order. */
  lemma ArrangeGroups(items: seq<SearchItem>)
    ensures var r := Arrange(items);
      forall i :: 0 <= i < |r| ==> r[i].items != [] && r[i].items == ItemsWithKey(items, ItemDate, r[i].key)
  {
    var ks := SortBy(DistinctKeys(items, ItemDate), Later);
    ArrangeIsSortedGroups(items);
    SortedKeys(items, ItemDate, Later);
    assert Arrange(items) == BuildGroups(ks, items, ItemDate);
    GroupsNonEmpty(ks, items, ItemDate);
  }

  /** The groups hold the items, each as often as it occurs among them. */
  lemma ArrangePartition(items: seq<SearchItem>)
    ensures multiset(AllItems(Arrange(items))) == multiset(items)
  {
    var ks := SortBy(DistinctKeys(items, ItemDate), Later);
    ArrangeIsSortedGroups(items);
    SortedKeys(items, ItemDate, Later);
    assert Arrange(items) == BuildGroups(ks, items, ItemDate);
    GroupsPartition(ks, items, ItemDate);
  }

  /** The initial load shows what a search with a blank query and no date window shows. */
  lemma InitialIsSearchAll(rows: seq<Transaction>, cats: seq<Category>, today: LocalDate)
    ensures InitialResults(rows, cats) == SearchResults(rows, cats, "", "all", today)
  {
    var categories := Categories(cats);
    var all := Dao.AllTransactions(rows);
    FilterAll(all, t => Matches(t, "", "all", today, categories));
  }

  /** A row whose key no other row carries shows up as often as it passes the filter. */
  lemma FilteredOnce(all: seq<Transaction>, p: Transaction -> bool, categories: map<int, Category>, t: Transaction)
    requires Distinct(all) && t in all
    requires forall y :: y in all && y.id == t.id ==> y == t
    ensures multiset(AllItems(Results(Filter(all, p), categories)))[ItemOf(t, categories)] == if p(t) then 1 else 0
  {
    var kept := Filter(all, p);
    var f := t => ItemOf(t, categories);
    ArrangePartition(Items(kept, categories));
    assert MapSeq(kept, f) == Items(kept, categories);
    forall y | y in kept && f(y) == f(t) ensures y == t {
      assert y in multiset(all);
    }
    MapMultiplicity(kept, f, t);
    FilterMultiset(all, p, t);
    DistinctMultiplicity(all, t);
  }

  /** Every shown item is the item of a row that passes the filter. */
  lemma FilteredOnly(all: seq<Transaction>, p: Transaction -> bool, categories: map<int, Category>, item: SearchItem)
    requires item in AllItems(Results(Filter(all, p), categories))
    ensures exists t :: t in all && p(t) && item == ItemOf(t, categories)
  {
    var kept := Filter(all, p);
    var items := Items(kept, categories);
    assert item in items by {
      ArrangePartition(items);
      assert item in multiset(AllItems(Arrange(items)));
    }
    var k :| 0 <= k < |items| && items[k] == item;
    assert kept[k] in kept;
  }

  /**
   * In a table with unique keys, a stored transaction shows up in the search
   * results exactly once when it passes both tests, and not at all otherwise.
   */
  lemma SearchFindsEachOnce(rows: seq<Transaction>, cats: seq<Category>, query: string, filterType: string,
                            today: LocalDate, t: Transaction)
    requires IdsAscending(rows, TransactionId) && t in rows
    ensures var categories := Categories(cats);
      multiset(AllItems(SearchResults(rows, cats, query, filterType, today)))[ItemOf(t, categories)]
        == if Matches(t, query, filterType, today, categories) then 1 else 0
  {
    var categories := Categories(cats);
    var all := Dao.AllTransactions(rows);
    RowsDistinct(rows);
    PermutationKeepsDistinct(rows, all);
    assert t in multiset(rows);
    forall y | y in all && y.id == t.id ensures y == t {
      assert y in multiset(rows);
      SameKeySameRow(rows, y, t);
    }
    FilteredOnce(all, t => Matches(t, query, filterType, today, categories), categories, t);
  }

  /** Every item in the search results is the item of a stored row that passes both tests. */
  lemma SearchShowsOnlyMatches(rows: seq<Transaction>, cats: seq<Category>, query: string, filterType: string,
                               today: LocalDate, item: SearchItem)
    requires item in AllItems(SearchResults(rows, cats, query, filterType, today))
    ensures var categories := Categories(cats);
      exists t :: t in rows && Matches(t, query, filterType, today, categories) && item == ItemOf(t, categories)
  {
    var categories := Categories(cats);
    var all := Dao.AllTransactions(rows);
    FilteredOnly(all, t => Matches(t, query, filterType, today, categories), categories, item);
    var t :| t in all && Matches(t, query, filterType, today, categories) && item == ItemOf(t, categories);
    assert t in multiset(all);
  }

  /** In a table with unique keys, two rows with the same key are the same row. */
  lemma SameKeySameRow(rows: seq<Transaction>, x: Transaction, t: Transaction)
    requires IdsAscending(rows, TransactionId) && x in rows && t in rows && x.id == t.id
    ensures x == t
  {
    var i :| 0 <= i < |rows| && rows[i] == x;
    var j :| 0 <= j < |rows| && rows[j] == t;
    if i != j {
      assert false;
    }
  }

  /** Keys that ascend strictly never repeat a row. */
  lemma RowsDistinct(rows: seq<Transaction>)
    requires IdsAscending(rows, TransactionId)
    ensures Distinct(rows)
  {
    forall i, j | 0 <= i < j < |rows| ensures rows[i] != rows[j] {
      assert rows[i].id < rows[j].id;
    }
  }

  /** "month" is the calendar month of today, from its first to its last day; it lies within "year". */
  lemma DateWindows(t: Transaction, today: LocalDate)
    ensures MatchesDateFilter(t, "month", today)
      <==> !Before(t.date, AtDay(YearMonthOf(today), 1)) && !Before(AtEndOfMonth(YearMonthOf(today)), t.date)
    ensures MatchesDateFilter(t, "month", today) ==> MatchesDateFilter(t, "year", today)
    ensures forall f :: f != "month" && f != "year" ==> MatchesDateFilter(t, f, today)
  {
    MonthIsInterval(YearMonthOf(today), t.date);
  }

  /**
   * A query that is not blank matches through the category name, lowercased,
   * or the note; a transaction without a category only through its note,
   * although its item shows "Unknown".
   */
  lemma QueryMatching(t: Transaction, query: string, categories: map<int, Category>)
    requires !IsBlank(query)
    ensures t.categoryId in categories ==>
      (MatchesQuery(t, query, categories) <==>
         (Contains(Lower(categories[t.categoryId].name), Lower(query)) || Contains(Lower(t.note), Lower(query))))
    ensures t.categoryId !in categories ==>
      (MatchesQuery(t, query, categories) <==> Contains(Lower(t.note), Lower(query)))
      && ItemOf(t, categories).categoryName == Unknown
  {
    if t.categoryId !in categories {
      assert |Lower(query)| > 0;
      assert !Contains("", Lower(query));
    }
  }

  /** The query is lowercased first, so its case does not change the results. */
  lemma SearchIgnoresQueryCase(rows: seq<Transaction>, cats: seq<Category>, query: string, filterType: string,
                               today: LocalDate)
    ensures SearchResults(rows, cats, Lower(query), filterType, today) == SearchResults(rows, cats, query, filterType, today)
  {
    var categories := Categories(cats);
    var all := Dao.AllTransactions(rows);
    LowerIdempotent(query);
    FilterCongruent(all, t => Matches(t, Lower(query), filterType, today, categories),
                    t => Matches(t, query, filterType, today, categories));
  }

  // ---------------------------------------------------------- view-model

  /** `SearchUiState` and its loads. */
  class SearchViewModel {
    var isLoading: bool
    var searchResults: seq<ResultGroup>

    /** The default state, then `init`'s `loadAllTransactions`. */
    constructor(rows: seq<Transaction>, cats: seq<Category>, store: Outcome)
      ensures !isLoading
      ensures searchResults == if store.Completes? then InitialResults(rows, cats) else []
    {
      isLoading, searchResults := false, [];
      new;
      LoadAllTransactions(rows, cats, store);
    }

    /** `loadAllTransactions`: the results when the reads (`store`) complete; the old ones when they throw. */
    method LoadAllTransactions(rows: seq<Transaction>, cats: seq<Category>, store: Outcome)
      modifies this
      ensures !isLoading
      ensures searchResults == if store.Completes? then InitialResults(rows, cats) else old(searchResults)
    {
      isLoading := true;
      if store.Completes? {
        var r := InitialResults(rows, cats);
        isLoading, searchResults := false, r;
      } else {
        isLoading := false;
      }
    }

    /** `search(query, filterType)`, `today` standing for `LocalDate.now()`. */
    method Search(query: string, filterType: string, today: LocalDate, rows: seq<Transaction>, cats: seq<Category>,
                  store: Outcome)
      modifies this
      ensures !isLoading
      ensures searchResults
        == if store.Completes? then SearchResults(rows, cats, query, filterType, today) else old(searchResults)
    {
      isLoading := true;
      if store.Completes? {
        var r := SearchResults(rows, cats, query, filterType, today);
        isLoading, searchResults := false, r;
      } else {
        isLoading := false;
      }
    }
  }
}
