/**
 * `generateMonthOptions()` of the month picker: the first days of the
 * months from ten years before the current month to ten years after it.
 */
module MonthPicker {
  import opened Wrappers
  import opened Dates

  /** How many months before and after the current one the list reaches. */
  const Reach: int := 120

  /** `current.plusMonths(offset).withDayOfMonth(1)`; `None` when `plusMonths` throws. */
  function Entry(current: LocalDate, offset: int): (r: Option<LocalDate>)
    requires Valid(current)
    ensures r.Some? <==> PlusMonths(current, offset).Some?
    ensures r.Some? ==> Valid(r.value) && r.value.day == 1
    ensures r.Some? ==> MonthIndex(r.value.year, r.value.month) == MonthIndex(current.year, current.month) + offset
  {
    match PlusMonths(current, offset)
    case None => None
    case Some(d) => Some(WithDayOfMonth(d, 1))
  }

  /**
   * `(from until from + n).map { Entry(current, it) }`: the entries in
   * offset order, or `None` as soon as one of them throws.
   */
  function Collect(current: LocalDate, from: int, n: nat): (r: Option<seq<LocalDate>>)
    requires Valid(current)
    ensures r.Some? <==> forall k :: from <= k < from + n ==> Entry(current, k).Some?
    ensures r.Some? ==> |r.value| == n
    ensures r.Some? ==> forall i :: 0 <= i < n ==> Some(r.value[i]) == Entry(current, from + i)
    decreases n
  {
    if n == 0 then Some([])
    else
      match Entry(current, from)
      case None => None
      case Some(d) =>
        match Collect(current, from + 1, n - 1)
        case None => None
        case Some(rest) => Some([d] + rest)
  }

  /** `generateMonthOptions()` with `current` from the clock. */
  function MonthOptions(current: LocalDate): Option<seq<LocalDate>>
    requires Valid(current)
  {
    Collect(current, -Reach, 2 * Reach + 1)
  }

  // -------------------------------------------------------------- lemmas

  /** Floor division by 12 keeps order. */
  lemma DivMonotone(a: int, b: int)
    requires a <= b
    ensures a / 12 <= b / 12
  {
  }

  /** The list exists exactly when both of its ends do: only a year beyond the supported range throws. */
  lemma OptionsExist(current: LocalDate)
    requires Valid(current)
    ensures MonthOptions(current).Some? <==> PlusMonths(current, -Reach).Some? && PlusMonths(current, Reach).Some?
    ensures MinYear + 10 <= current.year <= MaxYear - 10 ==> MonthOptions(current).Some?
  {
    var base := MonthIndex(current.year, current.month);
    if PlusMonths(current, -Reach).Some? && PlusMonths(current, Reach).Some? {
      forall k | -Reach <= k < Reach + 1 ensures Entry(current, k).Some? {
        DivMonotone(base - Reach, base + k);
        DivMonotone(base + k, base + Reach);
      }
    }
    if MonthOptions(current).Some? {
      assert Entry(current, -Reach).Some? && Entry(current, Reach).Some?;
    }
  }

  /**
   * The 241 entries are first days of months, one month apart in ascending
   * order, and the one in the middle is the first day of the current month.
   */
  lemma OptionsShape(current: LocalDate)
    requires Valid(current) && MonthOptions(current).Some?
    ensures |MonthOptions(current).value| == 241
    ensures forall i :: 0 <= i < 241 ==>
      var d := MonthOptions(current).value[i];
      Valid(d) && d.day == 1 && MonthIndex(d.year, d.month) == MonthIndex(current.year, current.month) + i - Reach
    ensures forall i :: 0 <= i < 240 ==>
      var d, e := MonthOptions(current).value[i], MonthOptions(current).value[i + 1];
      MonthIndex(e.year, e.month) == MonthIndex(d.year, d.month) + 1 && Before(d, e)
    ensures MonthOptions(current).value[Reach] == WithDayOfMonth(current, 1)
  {
    var r := MonthOptions(current).value;
    forall i | 0 <= i < 240 ensures Before(r[i], r[i + 1]) {
      assert Some(r[i]) == Entry(current, -Reach + i) && Some(r[i + 1]) == Entry(current, -Reach + i + 1);
      MonthIndexOrder(r[i], r[i + 1]);
    }
    var m := r[Reach];
    assert Some(m) == Entry(current, 0);
    MonthIndexInjective(m.year, m.month, current.year, current.month);
  }
}
