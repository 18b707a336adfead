/**
 * `DailyReminderWorker.doWork`: the text of the daily reminder, chosen from
 * today's rows and yesterday's spending, or a retry when something throws.
 */
module DailyReminder {
  import opened Wrappers
  import opened Seqs
  import opened Text
  import opened Dates
  import opened Entities
  import Dao = TransactionDao

  /** `Result.success()` (with the notification's text) or `Result.retry()`. */
  datatype WorkResult = Success(message: string) | Retry

  const TodayPrefix: string := "Hôm nay bạn đã có "
  const TodaySuffix: string := " giao dịch. Đừng quên cập nhật đầy đủ nhé! ✅"
  const SpentPrefix: string := "Hôm qua bạn chi "
  const SpentSuffix: string := " ₫. Hãy ghi chép chi tiêu hôm nay nhé! 💰"
  const NotYet: string := "Bạn chưa ghi chép chi tiêu hôm nay." + " Hãy cập nhật ngay! 📝"

  /** The reminder when there are rows today: their number. */
  function TodayCount(n: nat): string
  {
    TodayPrefix + NatToDigits(n) + TodaySuffix
  }

  /** The reminder when yesterday's spending is positive: the amount in vi-VN grouping. */
  function YesterdaySpent(x: int): string
  {
    SpentPrefix + FormatGrouped(x) + SpentSuffix
  }

  /** `filter { it.type == EXPENSE }.sumOf { it.amount }`. */
  function YesterdayExpense(yesterdayRows: seq<Transaction>): int
  {
    SumBy(Filter(yesterdayRows, IsExpense), Amount)
  }

  /** The message built from the two days' query results. */
  function Message(todayRows: seq<Transaction>, yesterdayRows: seq<Transaction>): string
  {
    if todayRows != [] then TodayCount(|todayRows|)
    else if YesterdayExpense(yesterdayRows) > 0 then YesterdaySpent(YesterdayExpense(yesterdayRows))
    else NotYet
  }

  /**
   * `doWork()` on the table `rows`, with `today` from the clock and `store`
   * the outcome of the database calls: a throwing query, or the
   * `minusDays(1)` below the first representable day, ends in a retry.
   */
  function DoWork(rows: seq<Transaction>, today: LocalDate, store: Outcome): (r: WorkResult)
    requires Valid(today)
    ensures r.Retry? <==> store.Throws? || today == Date(MinYear, 1, 1)
  {
    if store.Throws? then Retry
    else
      var todayRows := Dao.TransactionsByMonth(rows, today, today);
      match PrevDay(today)
      case None => Retry
      case Some(yesterday) =>
        WorkResult.Success(Message(todayRows, Dao.TransactionsByMonth(rows, yesterday, yesterday)))
  }

  // -------------------------------------------------------------- lemmas

  /** The stored rows dated `d`, in table order. */
  function RowsOn(rows: seq<Transaction>, d: LocalDate): (r: seq<Transaction>)
    ensures forall t :: t in r <==> t in rows && t.date == d
  {
    Filter(rows, (t: Transaction) => t.date == d)
  }

  /** A one-day range `[d, d]` with a four-digit year holds exactly the rows dated `d`. */
  lemma OneDayRange(rows: seq<Transaction>, d: LocalDate)
    requires 0 <= d.year <= 9999
    ensures Dao.InRangeRows(rows, d, d) == RowsOn(rows, d)
    ensures multiset(Dao.TransactionsByMonth(rows, d, d)) == multiset(RowsOn(rows, d))
  {
    forall t: Transaction ensures Dao.InRange(t, d, d) <==> t.date == d {
      Dao.InRangeIsChronological(t, d, d);
      BeforeIsStrictTotalOrder(t.date, d, d);
    }
    FilterCongruent(rows, t => Dao.InRange(t, d, d), (t: Transaction) => t.date == d);
    var r := Dao.TransactionsByMonth(rows, d, d);
    forall t ensures multiset(r)[t] == multiset(RowsOn(rows, d))[t] {
      FilterMultiset(rows, (t: Transaction) => t.date == d, t);
    }
  }

  /** The message depends only on which rows the two days hold, not on their order. */
  lemma MessageIgnoresOrder(a: seq<Transaction>, a': seq<Transaction>, b: seq<Transaction>, b': seq<Transaction>)
    requires multiset(a) == multiset(a') && multiset(b) == multiset(b')
    ensures Message(a, b) == Message(a', b')
  {
    assert |a| == |multiset(a)| == |a'|;
    forall t ensures multiset(Filter(b, IsExpense))[t] == multiset(Filter(b', IsExpense))[t] {
      FilterMultiset(b, IsExpense, t);
      FilterMultiset(b', IsExpense, t);
    }
    SumByPermutation(Filter(b, IsExpense), Filter(b', IsExpense), Amount);
  }

  /** Yesterday's spending in the message is the `EXPENSE` total the DAO reports for that day. */
  lemma YesterdayExpenseIsDayTotal(rows: seq<Transaction>, y: LocalDate)
    requires 0 <= y.year <= 9999
    ensures YesterdayExpense(Dao.TransactionsByMonth(rows, y, y)) == Dao.TotalExpenseByMonth(rows, y, y)
    ensures YesterdayExpense(Dao.TransactionsByMonth(rows, y, y)) == SumBy(RowsOn(rows, y), ExpenseAmount)
  {
    var r := Dao.TransactionsByMonth(rows, y, y);
    OneDayRange(rows, y);
    SumFilter(r, IsExpense, Amount, ExpenseAmount);
    SumByPermutation(r, RowsOn(rows, y), ExpenseAmount);
    Dao.TotalExpenseIsSum(rows, y, y);
  }

  /**
   * When the queries complete on a day of a year 1..9999, the reminder is
   * the message for the rows dated today and those dated yesterday.
   */
  lemma WorkReadsBothDays(rows: seq<Transaction>, today: LocalDate)
    requires Valid(today) && 1 <= today.year <= 9999
    ensures PrevDay(today).Some?
    ensures DoWork(rows, today, Completes)
         == WorkResult.Success(Message(RowsOn(rows, today), RowsOn(rows, PrevDay(today).value)))
  {
    var y := PrevDay(today).value;
    assert 0 <= y.year;
    OneDayRange(rows, today);
    OneDayRange(rows, y);
    MessageIgnoresOrder(Dao.TransactionsByMonth(rows, today, today), RowsOn(rows, today),
                        Dao.TransactionsByMonth(rows, y, y), RowsOn(rows, y));
  }

  /**
   * The three reminders differ at their fifth character, so the text names
   * the case: rows today, else positive spending yesterday, else neither.
   */
  lemma MessageTellsCase(todayRows: seq<Transaction>, yesterdayRows: seq<Transaction>)
    ensures |Message(todayRows, yesterdayRows)| > 4
    ensures Message(todayRows, yesterdayRows)[4] == 'n' <==> todayRows != []
    ensures Message(todayRows, yesterdayRows)[4] == 'q' <==> todayRows == [] && YesterdayExpense(yesterdayRows) > 0
    ensures Message(todayRows, yesterdayRows) == NotYet <==> todayRows == [] && YesterdayExpense(yesterdayRows) <= 0
  {
    var m := Message(todayRows, yesterdayRows);
    assert NotYet[4] == 'c';
    if todayRows != [] {
      assert m[4] == TodayPrefix[4] == 'n';
    } else if YesterdayExpense(yesterdayRows) > 0 {
      assert m[4] == SpentPrefix[4] == 'q';
    }
  }

  /** The count in the rows-today reminder reads back as the number of rows. */
  lemma TodayCountReadsBack(n: nat)
    ensures |TodayPrefix| + |TodaySuffix| <= |TodayCount(n)|
    ensures AllDigits(TodayCount(n)[|TodayPrefix|..|TodayCount(n)| - |TodaySuffix|])
    ensures DigitsValue(TodayCount(n)[|TodayPrefix|..|TodayCount(n)| - |TodaySuffix|]) == n
  {
    var m := TodayCount(n);
    assert m[|TodayPrefix|..|m| - |TodaySuffix|] == NatToDigits(n);
    NatToDigitsValue(n);
  }

  /** The amount in the spending reminder, dots removed, reads back as the amount. */
  lemma SpentReadsBack(x: int)
    requires x > 0
    ensures |SpentPrefix| + |SpentSuffix| <= |YesterdaySpent(x)|
    ensures AllDigits(RemoveDots(YesterdaySpent(x)[|SpentPrefix|..|YesterdaySpent(x)| - |SpentSuffix|]))
    ensures DigitsValue(RemoveDots(YesterdaySpent(x)[|SpentPrefix|..|YesterdaySpent(x)| - |SpentSuffix|])) == x
  {
    var m := YesterdaySpent(x);
    assert m[|SpentPrefix|..|m| - |SpentSuffix|] == GroupThousands(x);
    GroupThousandsDenotes(x);
  }
}
