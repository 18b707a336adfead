/**
 * The figures of the home screen's `DailyStatsTable`: the days with any
 * activity in date order, the totals and per-day averages over them, and
 * one row per day with the balance accumulated up to it.
 */
module DailyStats {
  import opened Wrappers
  import opened Seqs
  import opened Sorting
  import opened Text
  import opened Dates
  import opened Entities
  import opened Views
  import Repository = TransactionRepository

  /** What a day adds to the running balance. */
  function Net(d: DayData): int { d.income - d.expense }

  /** `it.income != 0L || it.expense != 0L`. */
  predicate HasActivity(d: DayData) { d.income != 0 || d.expense != 0 }

  /** `sortedBy { it.date }`. */
  predicate Earlier(a: DayData, b: DayData) { Before(a.date, b.date) }

  /** `nonEmptyDays`: the days with activity, earliest first, days of one date in input order. */
  function NonEmptyDays(data: seq<DayData>): seq<DayData>
  {
    SortBy(Filter(data, HasActivity), Earlier)
  }

  /** One row of the table; an amount cell of `None` is the "-" shown for a zero amount. */
  datatype DayRow = DayRow(dayText: string, income: Option<int>, expense: Option<int>, balance: int)

  /** The summary rows ("Tổng cộng", "TB/ngày") and the day rows. */
  datatype Summary = Summary(
    totalIncome: int,
    totalExpense: int,
    totalBalance: int,
    avgIncome: int,
    avgExpense: int,
    avgBalance: int,
    rows: seq<DayRow>)

  /** An amount cell: "-" for zero, the amount otherwise. */
  function Cell(x: int): (c: Option<int>)
    ensures c.None? <==> x == 0
    ensures c.Some? ==> c.value == x
  {
    if x == 0 then None else Some(x)
  }

  /** `day.date.dayOfMonth.toString().padStart(2, '0')`. */
  function DayText(d: DayData): (s: string)
    ensures |s| == 2 && AllDigits(s) && DigitsValue(s) == d.date.day
  {
    FixedDigitsValue(d.date.day, 2);
    PadDigits(d.date.day, 2)
  }

  /** Row `k`: the day's cells and the net of the days up to and including it. */
  function RowAt(days: seq<DayData>, k: int): DayRow
    requires 0 <= k < |days|
  {
    DayRow(DayText(days[k]), Cell(days[k].income), Cell(days[k].expense), SumBy(days[..k + 1], Net))
  }

  /** The day rows: row `k` shows day `k` of `days` and the net of the days up to it. */
  function Rows(days: seq<DayData>): (rows: seq<DayRow>)
    ensures |rows| == |days| && forall k :: 0 <= k < |days| ==> rows[k] == RowAt(days, k)
  {
    seq(|days|, k requires 0 <= k < |days| => RowAt(days, k))
  }

  /** The table over `nonEmptyDays`, averaging over `size.coerceAtLeast(1)` days. */
  function Summarize(days: seq<DayData>): Summary
  {
    var totalIncome := SumBy(days, DayIncome);
    var totalExpense := SumBy(days, DayExpense);
    var n := if |days| < 1 then 1 else |days|;
    var avgIncome := TruncDiv(totalIncome, n);
    var avgExpense := TruncDiv(totalExpense, n);
    Summary(totalIncome, totalExpense, totalIncome - totalExpense, avgIncome, avgExpense,
            avgIncome - avgExpense, Rows(days))
  }

  /**
   * The table for `data`, or `None` where the screen shows "Chưa có dữ
   * liệu thống kê": when the data is empty or no day has any activity.
   */
  function Table(data: seq<DayData>): Option<Summary>
  {
    if data == [] || NonEmptyDays(data) == [] then None else Some(Summarize(NonEmptyDays(data)))
  }

  /**
   * `DailyStatsTable`'s computation: the early returns, the sums and the
   * averages, then the rows.
   */
  method DailyStatsTable(data: seq<DayData>) returns (table: Option<Summary>)
    ensures table == Table(data)
  {
    if data == [] {
      return None;
    }
    var days := NonEmptyDays(data);
    if days == [] {
      return None;
    }
    var totalIncome := SumBy(days, DayIncome);
    var totalExpense := SumBy(days, DayExpense);
    var daysInMonth := if |days| < 1 then 1 else |days|;
    var avgIncome := TruncDiv(totalIncome, daysInMonth);
    var avgExpense := TruncDiv(totalExpense, daysInMonth);
    var rows := RunningRows(days);
    table := Some(Summary(totalIncome, totalExpense, totalIncome - totalExpense, avgIncome, avgExpense,
                          avgIncome - avgExpense, rows));
  }

  /** `nonEmptyDays.forEach`, adding each day's net to `runningBalance` before its row. */
  method RunningRows(days: seq<DayData>) returns (rows: seq<DayRow>)
    ensures rows == Rows(days)
  {
    rows := [];
    var runningBalance := 0;
    var i := 0;
    while i < |days|
      invariant 0 <= i <= |days|
      invariant runningBalance == SumBy(days[..i], Net)
      invariant |rows| == i && forall k :: 0 <= k < i ==> rows[k] == RowAt(days, k)
    {
      PrefixSumStep(days, i);
      runningBalance := runningBalance + (days[i].income - days[i].expense);
      rows := rows + [DayRow(DayText(days[i]), Cell(days[i].income), Cell(days[i].expense), runningBalance)];
      i := i + 1;
    }
  }

  // ------------------------------------------------------------- lemmas

  lemma PrefixSumStep(days: seq<DayData>, i: int)
    requires 0 <= i < |days|
    ensures SumBy(days[..i + 1], Net) == SumBy(days[..i], Net) + Net(days[i])
  {
    assert days[..i + 1] == days[..i] + [days[i]];
    SumByAppend(days[..i], [days[i]], Net);
  }

  lemma {:induction false} NetSum(s: seq<DayData>)
    ensures SumBy(s, Net) == SumBy(s, DayIncome) - SumBy(s, DayExpense)
  {
    if s != [] {
      NetSum(s[1..]);
    }
  }

  lemma EarlierIsStrictOrder()
    ensures StrictOrder(Earlier)
  {
    forall a: DayData ensures !Earlier(a, a) {
      BeforeIsStrictTotalOrder(a.date, a.date, a.date);
    }
    forall a: DayData, b: DayData, c: DayData | Earlier(a, b) && Earlier(b, c) ensures Earlier(a, c) {
      BeforeIsStrictTotalOrder(a.date, b.date, c.date);
    }
  }

  /**
   * `nonEmptyDays` holds exactly the days with activity, each as often as
   * in the data, and no day comes after a later-dated one.
   */
  lemma NonEmptyDaysExact(data: seq<DayData>)
    ensures forall d :: d in NonEmptyDays(data) <==> d in data && HasActivity(d)
    ensures forall d :: multiset(NonEmptyDays(data))[d] == if HasActivity(d) then multiset(data)[d] else 0
    ensures SortedBy(NonEmptyDays(data), Earlier)
  {
    var kept := Filter(data, HasActivity);
    forall d ensures d in NonEmptyDays(data) <==> d in kept {
      assert d in NonEmptyDays(data) <==> d in multiset(NonEmptyDays(data));
    }
    forall d ensures multiset(NonEmptyDays(data))[d] == if HasActivity(d) then multiset(data)[d] else 0 {
      FilterMultiset(data, HasActivity, d);
    }
    EarlierIsStrictOrder();
    SortIsSorted(kept, Earlier);
  }

  /** No table exactly when no day of the data, if any, has activity. */
  lemma TableAbsent(data: seq<DayData>)
    ensures Table(data).None? <==> forall i :: 0 <= i < |data| ==> !HasActivity(data[i])
  {
    NonEmptyDaysExact(data);
    if Table(data).None? && data != [] {
      forall i | 0 <= i < |data| ensures !HasActivity(data[i]) {
        assert data[i] in data;
      }
    }
  }

  /** The totals cover every day of the data: the days left out add nothing. */
  lemma TotalsOverAllDays(data: seq<DayData>)
    requires Table(data).Some?
    ensures Table(data).value.totalIncome == SumBy(data, DayIncome)
    ensures Table(data).value.totalExpense == SumBy(data, DayExpense)
    ensures Table(data).value.totalBalance == SumBy(data, Net)
  {
    var kept := Filter(data, HasActivity);
    SumByPermutation(NonEmptyDays(data), kept, DayIncome);
    SumByPermutation(NonEmptyDays(data), kept, DayExpense);
    SumFilter(data, HasActivity, DayIncome, DayIncome);
    SumFilter(data, HasActivity, DayExpense, DayExpense);
    NetSum(data);
  }

  /**
   * The averages divide by the number of days with activity, truncating
   * toward zero, so they miss the exact quotient by less than one.
   */
  lemma Averages(data: seq<DayData>)
    requires Table(data).Some?
    ensures var s := Table(data).value;
      var n := |NonEmptyDays(data)|;
      && n >= 1 && n == |s.rows|
      && s.avgIncome == TruncDiv(s.totalIncome, n) && s.avgExpense == TruncDiv(s.totalExpense, n)
      && Abs(s.totalIncome - n * s.avgIncome) < n && Abs(s.totalExpense - n * s.avgExpense) < n
      && s.avgBalance == s.avgIncome - s.avgExpense
  {
    var s := Table(data).value;
    var n := |NonEmptyDays(data)|;
    TruncDivRemainder(s.totalIncome, n);
    TruncDivRemainder(s.totalExpense, n);
  }

  /**
   * The running balance starts from the first day's net, each row adds its
   * day's net to the one before, and the last row ends on the total balance.
   */
  lemma RunningBalance(days: seq<DayData>)
    requires days != []
    ensures var s := Summarize(days);
      && s.rows[0].balance == Net(days[0])
      && (forall k :: 0 < k < |s.rows| ==> s.rows[k].balance == s.rows[k - 1].balance + Net(days[k]))
      && s.rows[|s.rows| - 1].balance == s.totalBalance
  {
    var rows := Rows(days);
    PrefixSumStep(days, 0);
    assert days[..0] == [];
    forall k | 0 < k < |rows| ensures rows[k].balance == rows[k - 1].balance + Net(days[k]) {
      PrefixSumStep(days, k);
    }
    assert days[..|days|] == days;
    NetSum(days);
  }

  /** Each row shows its day's date of month and its amounts, "-" for a zero one. */
  lemma RowCells(data: seq<DayData>, k: int)
    requires Table(data).Some? && 0 <= k < |Table(data).value.rows|
    ensures var r := Table(data).value.rows[k];
      var d := NonEmptyDays(data)[k];
      && DigitsValue(r.dayText) == d.date.day
      && (r.income.None? <==> d.income == 0) && (r.income.Some? ==> r.income.value == d.income)
      && (r.expense.None? <==> d.expense == 0) && (r.expense.Some? ==> r.expense.value == d.expense)
  {
  }

  /**
   * On the series of a month the sort changes nothing: its days already
   * ascend, so the rows are the days with activity in calendar order.
   */
  lemma MonthSeriesKeepsOrder(rows: seq<Transaction>, month: LocalDate)
    ensures var data := Repository.ChartDataByMonth(rows, month);
      NonEmptyDays(data) == Filter(data, HasActivity)
  {
    var data := Repository.ChartDataByMonth(rows, month);
    var kept := Filter(data, HasActivity);
    Repository.ChartAscending(rows, month);
    FilterKeepsAscending(data);
    AscendingIsSorted(kept);
    SortSortedUnchanged(kept, Earlier);
  }

  predicate Ascending(s: seq<DayData>)
  {
    forall i, j :: 0 <= i < j < |s| ==> Before(s[i].date, s[j].date)
  }

  /** A day before every day of an ascending list can go in front of it. */
  lemma ConsAscending(x: DayData, rest: seq<DayData>)
    requires Ascending(rest)
    requires forall j :: 0 <= j < |rest| ==> Before(x.date, rest[j].date)
    ensures Ascending([x] + rest)
  {
    var s := [x] + rest;
    forall i, j | 0 <= i < j < |s| ensures Before(s[i].date, s[j].date) {
      assert s[j] == rest[j - 1];
      if i > 0 {
        assert s[i] == rest[i - 1];
      }
    }
  }

  lemma {:induction false} FilterKeepsAscending(data: seq<DayData>)
    requires Ascending(data)
    ensures Ascending(Filter(data, HasActivity))
    ensures forall x :: x in Filter(data, HasActivity) ==> x in data
  {
    if data != [] {
      var rest := Filter(data[1..], HasActivity);
      assert Ascending(data[1..]) by {
        forall i, j | 0 <= i < j < |data[1..]| ensures Before(data[1..][i].date, data[1..][j].date) {
          assert data[1..][i] == data[i + 1] && data[1..][j] == data[j + 1];
        }
      }
      FilterKeepsAscending(data[1..]);
      if HasActivity(data[0]) {
        assert Filter(data, HasActivity) == [data[0]] + rest;
        forall j | 0 <= j < |rest| ensures Before(data[0].date, rest[j].date) {
          assert rest[j] in data[1..];
          var m :| 0 <= m < |data[1..]| && data[1..][m] == rest[j];
          assert data[m + 1] == rest[j];
        }
        ConsAscending(data[0], rest);
      } else {
        assert Filter(data, HasActivity) == rest;
      }
    }
  }

  lemma AscendingIsSorted(s: seq<DayData>)
    requires Ascending(s)
    ensures SortedBy(s, Earlier)
  {
    forall i, j | 0 <= i < j < |s| ensures !Earlier(s[j], s[i]) {
      BeforeIsStrictTotalOrder(s[i].date, s[j].date, s[i].date);
    }
  }
}
