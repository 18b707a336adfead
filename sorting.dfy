/**
 * A stable insertion sort over an arbitrary strict order. It stands for the
 * library sorts of the source (`sortedBy`, `sortedByDescending`, `toSortedMap`)
 * and for SQL `ORDER BY`; each caller supplies its own comparison.
 */
module Sorting {
  import opened Seqs

  /** `lt` is irreflexive and transitive. */
  ghost predicate StrictOrder<T(!new)>(lt: (T, T) -> bool)
  {
    && (forall a :: !lt(a, a))
    && (forall a, b, c :: lt(a, b) && lt(b, c) ==> lt(a, c))
  }

  /** Any two different values are comparable. */
  ghost predicate Total<T(!new)>(lt: (T, T) -> bool)
  {
    forall a, b :: a != b ==> lt(a, b) || lt(b, a)
  }

  /** No element is strictly below an earlier one. */
  ghost predicate SortedBy<T>(s: seq<T>, lt: (T, T) -> bool)
  {
    forall i, j :: 0 <= i < j < |s| ==> !lt(s[j], s[i])
  }

  /** Puts `x` after every element it is not below, before the first one it is below. */
  function InsertBy<T>(x: T, s: seq<T>, lt: (T, T) -> bool): (r: seq<T>)
    ensures |r| == |s| + 1
    ensures multiset(r) == multiset(s) + multiset{x}
  {
    if s == [] then [x]
    else if lt(x, s[0]) then [x] + s
    else
      assert s == [s[0]] + s[1..];
      [s[0]] + InsertBy(x, s[1..], lt)
  }

  /** Inserts the elements one by one in their input order, so equal elements keep it. */
  function SortBy<T>(s: seq<T>, lt: (T, T) -> bool): (r: seq<T>)
    ensures |r| == |s|
    ensures multiset(r) == multiset(s)
  {
    if s == [] then []
    else
      assert s == s[..|s| - 1] + [s[|s| - 1]];
      InsertBy(s[|s| - 1], SortBy(s[..|s| - 1], lt), lt)
  }

  lemma {:induction false} InsertKeepsSorted<T(!new)>(x: T, s: seq<T>, lt: (T, T) -> bool)
    requires StrictOrder(lt) && SortedBy(s, lt)
    ensures SortedBy(InsertBy(x, s, lt), lt)
  {
    if s == [] {
    } else if lt(x, s[0]) {
      var r := InsertBy(x, s, lt);
      forall i, j | 0 <= i < j < |r| ensures !lt(r[j], r[i]) {
        if i == 0 {
          assert r[j] == s[j - 1];
        } else {
          assert r[i] == s[i - 1] && r[j] == s[j - 1];
        }
      }
    } else {
      var tail := InsertBy(x, s[1..], lt);
      assert SortedBy(s[1..], lt) by {
        forall i, j | 0 <= i < j < |s[1..]| ensures !lt(s[1..][j], s[1..][i]) {
          assert s[1..][i] == s[i + 1] && s[1..][j] == s[j + 1];
        }
      }
      InsertKeepsSorted(x, s[1..], lt);
      var r := [s[0]] + tail;
      forall i, j | 0 <= i < j < |r| ensures !lt(r[j], r[i]) {
        if i == 0 {
          var e := tail[j - 1];
          assert e in multiset(tail);
          assert e in multiset(s[1..]) || e == x;
          if e != x {
            var k :| 0 <= k < |s[1..]| && s[1..][k] == e;
            assert s[k + 1] == e;
          }
        } else {
          assert r[i] == tail[i - 1] && r[j] == tail[j - 1];
        }
      }
    }
  }

  lemma {:induction false} SortIsSorted<T(!new)>(s: seq<T>, lt: (T, T) -> bool)
    requires StrictOrder(lt)
    ensures SortedBy(SortBy(s, lt), lt)
  {
    if s != [] {
      SortIsSorted(s[..|s| - 1], lt);
      InsertKeepsSorted(s[|s| - 1], SortBy(s[..|s| - 1], lt), lt);
    }
  }

  /** Sorted, without repetitions and over a total order: strictly increasing. */
  lemma SortedDistinctIsStrict<T(!new)>(s: seq<T>, lt: (T, T) -> bool)
    requires SortedBy(s, lt) && Distinct(s) && Total(lt)
    ensures forall i, j :: 0 <= i < j < |s| ==> lt(s[i], s[j])
  {
  }

  /** Sorting a sequence without repetitions gives one without repetitions, holding the same values. */
  lemma SortKeepsDistinct<T(!new)>(s: seq<T>, lt: (T, T) -> bool)
    requires Distinct(s)
    ensures Distinct(SortBy(s, lt))
    ensures forall x :: x in SortBy(s, lt) <==> x in s
  {
    PermutationKeepsDistinct(s, SortBy(s, lt));
    forall x ensures x in SortBy(s, lt) <==> x in s {
      assert x in SortBy(s, lt) <==> x in multiset(SortBy(s, lt));
    }
  }

  /** An element below none of the sequence's goes to its end. */
  lemma {:induction false} InsertLast<T>(x: T, s: seq<T>, lt: (T, T) -> bool)
    requires forall i :: 0 <= i < |s| ==> !lt(x, s[i])
    ensures InsertBy(x, s, lt) == s + [x]
  {
    if s != [] {
      InsertLast(x, s[1..], lt);
      assert s == [s[0]] + s[1..];
    }
  }

  /** Sorting what is already sorted changes nothing. */
  lemma {:induction false} SortSortedUnchanged<T>(s: seq<T>, lt: (T, T) -> bool)
    requires SortedBy(s, lt)
    ensures SortBy(s, lt) == s
  {
    if s != [] {
      var init, last := s[..|s| - 1], s[|s| - 1];
      assert SortBy(init, lt) == init by {
        assert SortedBy(init, lt);
        SortSortedUnchanged(init, lt);
      }
      assert InsertBy(last, init, lt) == init + [last] by {
        assert forall i :: 0 <= i < |init| ==> init[i] == s[i];
        InsertLast(last, init, lt);
      }
      assert s == init + [last];
    }
  }
}
