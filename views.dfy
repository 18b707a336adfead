/**
 * What several screens share: `groupBy { it.date }.toSortedMap(compareByDescending { it })`
 * and what it promises, Kotlin's `/` on `Long`, and counting by summing ones.
 */
module Views {
  import opened Seqs
  import opened Sorting
  import opened Grouping
  import opened Dates
  import opened Entities

  /** `compareByDescending { it }` on dates: `a` is listed first when it is later. */
  predicate Later(a: LocalDate, b: LocalDate) { After(a, b) }

  lemma LaterIsStrictTotalOrder()
    ensures StrictOrder(Later) && Total(Later)
  {
    forall a: LocalDate ensures !Later(a, a) {
      BeforeIsStrictTotalOrder(a, a, a);
    }
    forall a: LocalDate, b: LocalDate, c: LocalDate | Later(a, b) && Later(b, c)
      ensures Later(a, c)
    {
      BeforeIsStrictTotalOrder(c, b, a);
    }
    forall a: LocalDate, b: LocalDate | a != b ensures Later(a, b) || Later(b, a) {
      BeforeIsStrictTotalOrder(a, b, b);
    }
  }

  /** The transactions grouped by date, latest date first, each group keeping input order. */
  function ByDateDescending(xs: seq<Transaction>): seq<Group<LocalDate, Transaction>>
  {
    GroupBySorted(xs, DateOf, Later)
  }

  /** Dates come strictly descending, so no date has two groups. */
  lemma ByDateDescendingOrder(xs: seq<Transaction>)
    ensures var gs := ByDateDescending(xs);
      forall i, j :: 0 <= i < j < |gs| ==> Before(gs[j].key, gs[i].key)
  {
    LaterIsStrictTotalOrder();
    SortedGroupsStrict(xs, DateOf, Later);
  }

  /** Every group is non-empty and holds exactly the transactions of its date, in input order. */
  lemma ByDateDescendingGroups(xs: seq<Transaction>)
    ensures var gs := ByDateDescending(xs);
      && (forall i :: 0 <= i < |gs| ==> gs[i].items != [])
      && (forall i :: 0 <= i < |gs| ==> gs[i].items == ItemsWithKey(xs, DateOf, gs[i].key))
  {
    var ks := SortBy(DistinctKeys(xs, DateOf), Later);
    SortedKeys(xs, DateOf, Later);
    assert ByDateDescending(xs) == BuildGroups(ks, xs, DateOf);
    GroupsNonEmpty(ks, xs, DateOf);
  }

  /** Every date carried by a transaction has a group. */
  lemma ByDateDescendingCovers(xs: seq<Transaction>)
    ensures var gs := ByDateDescending(xs);
      forall t :: t in xs ==> exists i :: 0 <= i < |gs| && gs[i].key == t.date
  {
    var ks := SortBy(DistinctKeys(xs, DateOf), Later);
    SortedKeys(xs, DateOf, Later);
    ExactKeysMembers(ks, xs, DateOf);
    var gs := BuildGroups(ks, xs, DateOf);
    assert ByDateDescending(xs) == gs;
    forall t | t in xs ensures exists i :: 0 <= i < |gs| && gs[i].key == t.date {
      assert DateOf(t) in ks;
      var i :| 0 <= i < |ks| && ks[i] == t.date;
      assert gs[i].key == ks[i];
    }
  }

  /** Every group's date is carried by some transaction. */
  lemma ByDateDescendingPresent(xs: seq<Transaction>)
    ensures var gs := ByDateDescending(xs);
      forall i :: 0 <= i < |gs| ==> exists t :: t in xs && t.date == gs[i].key
  {
    var ks := SortBy(DistinctKeys(xs, DateOf), Later);
    SortedKeys(xs, DateOf, Later);
    ExactKeysMembers(ks, xs, DateOf);
    var gs := BuildGroups(ks, xs, DateOf);
    assert ByDateDescending(xs) == gs;
    forall i | 0 <= i < |gs| ensures exists t :: t in xs && t.date == gs[i].key {
      assert gs[i].key == ks[i] && ks[i] in ks;
      var t :| t in xs && DateOf(t) == ks[i];
    }
  }

  /** Every transaction lands in exactly one group: the groups hold the input, each element as often. */
  lemma ByDateDescendingPartition(xs: seq<Transaction>)
    ensures multiset(AllItems(ByDateDescending(xs))) == multiset(xs)
    ensures forall f: Transaction -> int :: GroupTotals(ByDateDescending(xs), f) == SumBy(xs, f)
  {
    var ks := SortBy(DistinctKeys(xs, DateOf), Later);
    SortedKeys(xs, DateOf, Later);
    GroupsPartition(ks, xs, DateOf);
    forall f: Transaction -> int ensures GroupTotals(ByDateDescending(xs), f) == SumBy(xs, f) {
      GroupTotalsSum(ks, xs, DateOf, f);
    }
  }

  // -------------------------------------------------------- arithmetic

  function Abs(x: int): nat { if x < 0 then -x else x }

  /** Kotlin's `/` on integers: the exact quotient truncated toward zero. */
  function TruncDiv(a: int, b: int): int
    requires b != 0
  {
    var q := Abs(a) / Abs(b);
    if (a < 0) == (b < 0) then q else -q
  }

  /**
   * The truncated quotient leaves a remainder smaller than the divisor that
   * has the sign of the dividend; on non-negative operands it is Dafny's `/`.
   */
  lemma TruncDivRemainder(a: int, b: int)
    requires b != 0
    ensures var r := a - b * TruncDiv(a, b);
      Abs(r) < Abs(b) && (r == 0 || (r < 0 <==> a < 0))
    ensures a >= 0 && b > 0 ==> TruncDiv(a, b) == a / b
  {
    var q := Abs(a) / Abs(b);
    var m := Abs(a) % Abs(b);
    assert Abs(a) == Abs(b) * q + m;
    if a >= 0 && b > 0 {
    } else if a >= 0 {
      assert a - b * TruncDiv(a, b) == Abs(a) - Abs(b) * q;
    } else if b > 0 {
      assert a - b * TruncDiv(a, b) == -(Abs(a) - Abs(b) * q);
    } else {
      assert a - b * TruncDiv(a, b) == -(Abs(a) - Abs(b) * q);
    }
  }

  /** `if (n > 0) total / n else 0`. */
  function AverageOrZero(total: int, n: int): (r: int)
    ensures n <= 0 ==> r == 0
    ensures n > 0 ==> r == TruncDiv(total, n)
  {
    if n > 0 then TruncDiv(total, n) else 0
  }

  // ---------------------------------------------------------- counting

  function One<T>(x: T): int { 1 }

  lemma {:induction false} SumOfOnes<T>(s: seq<T>)
    ensures SumBy(s, One) == |s|
  {
    if s != [] {
      SumOfOnes(s[1..]);
    }
  }
}
