/**
 * Kotlin's `groupBy`: one group per distinct key, keys in order of first
 * appearance, each group keeping its elements in input order. Sorting the
 * keys first gives `groupBy { … }.toSortedMap(comparator)`. The lemmas show
 * that the groups partition the input, so that group totals add up to the
 * overall total.
 */
module Grouping {
  import opened Seqs
  import opened Sorting

  datatype Group<K, T> = Group(key: K, items: seq<T>)

  /** The distinct keys of `xs`, in order of first appearance. */
  function DistinctKeys<K(==,!new), T(!new)>(xs: seq<T>, key: T -> K): (ks: seq<K>)
    ensures Distinct(ks)
    ensures forall k :: k in ks <==> exists i :: 0 <= i < |xs| && key(xs[i]) == k
  {
    if xs == [] then []
    else
      var init := xs[..|xs| - 1];
      var k := key(xs[|xs| - 1]);
      var ks := DistinctKeys(init, key);
      assert forall i :: 0 <= i < |init| ==> init[i] == xs[i];
      if k in ks then ks else ks + [k]
  }

  /** The index of the first element of `xs` whose key is `k`, or `|xs|` when there is none. */
  ghost function FirstIndex<K, T>(xs: seq<T>, key: T -> K, k: K): (i: nat)
    ensures i <= |xs|
    ensures i < |xs| ==> key(xs[i]) == k
    ensures forall j :: 0 <= j < i ==> key(xs[j]) != k
  {
    if xs == [] then 0 else if key(xs[0]) == k then 0 else 1 + FirstIndex(xs[1..], key, k)
  }

  /** Appending one element leaves the first index of a key already present unchanged. */
  lemma FirstIndexExtend<K, T>(xs: seq<T>, key: T -> K, k: K)
    requires xs != []
    ensures var init := xs[..|xs| - 1];
      && (FirstIndex(init, key, k) < |init| ==> FirstIndex(xs, key, k) == FirstIndex(init, key, k))
      && (FirstIndex(init, key, k) == |init| ==> FirstIndex(xs, key, k) >= |init|)
  {
    var init := xs[..|xs| - 1];
    var b := FirstIndex(init, key, k);
    if b < |init| {
      assert xs[b] == init[b];
    }
  }

  /** Each key of `ks` first appears in `xs`, and earlier than every key listed after it. */
  ghost predicate FirstAppearanceOrder<K, T>(ks: seq<K>, xs: seq<T>, key: T -> K)
  {
    forall i, j :: 0 <= i < j < |ks| ==> FirstIndex(xs, key, ks[i]) < FirstIndex(xs, key, ks[j]) < |xs|
  }

  /**
   * `groupBy` keeps its keys in a `LinkedHashMap`: the distinct keys are
   * listed in the order in which they first appear in `xs`.
   */
  lemma {:induction false} DistinctKeysInOrder<K(!new), T(!new)>(xs: seq<T>, key: T -> K)
    ensures FirstAppearanceOrder(DistinctKeys(xs, key), xs, key)
  {
    if xs != [] {
      var init := xs[..|xs| - 1];
      var k := key(xs[|xs| - 1]);
      var ks := DistinctKeys(init, key);
      DistinctKeysInOrder(init, key);
      forall c | c in ks
        ensures FirstIndex(xs, key, c) == FirstIndex(init, key, c) < |init|
      {
        var i :| 0 <= i < |init| && key(init[i]) == c;
        FirstIndexExtend(xs, key, c);
      }
      forall i, j | 0 <= i < j < |ks|
        ensures FirstIndex(xs, key, ks[i]) < FirstIndex(xs, key, ks[j]) < |init|
      {
        assert ks[i] in ks && ks[j] in ks;
        assert FirstIndex(init, key, ks[i]) < FirstIndex(init, key, ks[j]);
      }
      if k !in ks {
        forall j | 0 <= j < |init|
          ensures key(xs[j]) != k
        {
          assert init[j] == xs[j];
        }
        assert FirstIndex(xs, key, k) == |xs| - 1;
        var ks' := ks + [k];
        assert DistinctKeys(xs, key) == ks';
        forall i, j | 0 <= i < j < |ks'|
          ensures FirstIndex(xs, key, ks'[i]) < FirstIndex(xs, key, ks'[j]) < |xs|
        {
          assert ks'[i] == ks[i] && ks[i] in ks;
          if j < |ks| {
            assert ks'[j] == ks[j];
          }
        }
      } else {
        assert DistinctKeys(xs, key) == ks;
      }
    }
  }

  /** The elements of `xs` whose key is `k`, in input order. */
  function ItemsWithKey<K(==), T(!new)>(xs: seq<T>, key: T -> K, k: K): (r: seq<T>)
    ensures |r| <= |xs|
    ensures forall i :: 0 <= i < |r| ==> key(r[i]) == k
  {
    if xs == [] then [] else (if key(xs[0]) == k then [xs[0]] else []) + ItemsWithKey(xs[1..], key, k)
  }

  lemma {:induction false} ItemsWithKeyMembers<K, T(!new)>(xs: seq<T>, key: T -> K, k: K)
    ensures forall x :: x in ItemsWithKey(xs, key, k) <==> x in xs && key(x) == k
  {
    if xs != [] {
      ItemsWithKeyMembers(xs[1..], key, k);
      assert xs == [xs[0]] + xs[1..];
    }
  }

  /** One group per listed key, in the listed order. */
  function BuildGroups<K(==), T(!new)>(ks: seq<K>, xs: seq<T>, key: T -> K): (gs: seq<Group<K, T>>)
    ensures |gs| == |ks|
    ensures forall i :: 0 <= i < |ks| ==> gs[i] == Group(ks[i], ItemsWithKey(xs, key, ks[i]))
  {
    if ks == [] then [] else [Group(ks[0], ItemsWithKey(xs, key, ks[0]))] + BuildGroups(ks[1..], xs, key)
  }

  /** `groupBy(key)`. */
  function GroupBy<K(==,!new), T(!new)>(xs: seq<T>, key: T -> K): seq<Group<K, T>>
  {
    BuildGroups(DistinctKeys(xs, key), xs, key)
  }

  /** `groupBy(key).toSortedMap(comparator)`, `lt` being the comparator's "comes first". */
  function GroupBySorted<K(==,!new), T(!new)>(xs: seq<T>, key: T -> K, lt: (K, K) -> bool): seq<Group<K, T>>
  {
    BuildGroups(SortBy(DistinctKeys(xs, key), lt), xs, key)
  }

  function KeyOf<K, T>(g: Group<K, T>): K { g.key }

  function ItemsOf<K, T>(g: Group<K, T>): seq<T> { g.items }

  /** All group elements, group after group. */
  function AllItems<K, T>(gs: seq<Group<K, T>>): seq<T>
  {
    if gs == [] then [] else gs[0].items + AllItems(gs[1..])
  }

  /** The sum of `f` over each group, added up over the groups. */
  function GroupTotals<K, T>(gs: seq<Group<K, T>>, f: T -> int): int
  {
    if gs == [] then 0 else SumBy(gs[0].items, f) + GroupTotals(gs[1..], f)
  }

  // --------------------------------------------------------------- lemmas

  lemma {:induction false} ItemsWithKeyAppend<K, T(!new)>(xs: seq<T>, x: T, key: T -> K, k: K)
    ensures ItemsWithKey(xs + [x], key, k) == ItemsWithKey(xs, key, k) + (if key(x) == k then [x] else [])
  {
    if xs == [] {
      assert xs + [x] == [x];
    } else {
      assert (xs + [x])[1..] == xs[1..] + [x];
      ItemsWithKeyAppend(xs[1..], x, key, k);
    }
  }

  /** A listed key that occurs in the input has a non-empty group. */
  lemma ItemsWithKeyNonEmpty<K, T(!new)>(xs: seq<T>, key: T -> K, i: int)
    requires 0 <= i < |xs|
    ensures ItemsWithKey(xs, key, key(xs[i])) != []
  {
    assert xs[i] in xs;
    ItemsWithKeyMembers(xs, key, key(xs[i]));
  }

  /** The elements of the groups over distinct keys `ks` that are listed: those of `xs` with a key in `ks`. */
  lemma {:induction false} AllItemsMultiset<K, T(!new)>(ks: seq<K>, xs: seq<T>, key: T -> K)
    requires Distinct(ks)
    ensures multiset(AllItems(BuildGroups(ks, xs, key))) == multiset(ItemsWithKeyIn(xs, key, ks))
    decreases |xs|
  {
    var gs := BuildGroups(ks, xs, key);
    if xs == [] {
      EmptyGroups(ks, key);
    } else {
      var init, x := xs[..|xs| - 1], xs[|xs| - 1];
      assert xs == init + [x];
      AllItemsMultiset(ks, init, key);
      AllItemsAppend(ks, init, x, key);
      ItemsWithKeyInAppend(init, x, key, ks);
    }
  }

  /** The elements of `xs` whose key is listed in `ks`. */
  function ItemsWithKeyIn<K(==), T(!new)>(xs: seq<T>, key: T -> K, ks: seq<K>): seq<T>
  {
    if xs == [] then [] else (if key(xs[0]) in ks then [xs[0]] else []) + ItemsWithKeyIn(xs[1..], key, ks)
  }

  lemma {:induction false} ItemsWithKeyInAppend<K, T(!new)>(xs: seq<T>, x: T, key: T -> K, ks: seq<K>)
    ensures ItemsWithKeyIn(xs + [x], key, ks) == ItemsWithKeyIn(xs, key, ks) + (if key(x) in ks then [x] else [])
  {
    if xs == [] {
      assert xs + [x] == [x];
    } else {
      assert (xs + [x])[1..] == xs[1..] + [x];
      ItemsWithKeyInAppend(xs[1..], x, key, ks);
    }
  }

  /** When every key of `xs` is listed, nothing is dropped. */
  lemma {:induction false} ItemsWithKeyInAll<K, T(!new)>(xs: seq<T>, key: T -> K, ks: seq<K>)
    requires forall i :: 0 <= i < |xs| ==> key(xs[i]) in ks
    ensures ItemsWithKeyIn(xs, key, ks) == xs
  {
    if xs != [] {
      ItemsWithKeyInAll(xs[1..], key, ks);
    }
  }

  lemma {:induction false} EmptyGroups<K, T(!new)>(ks: seq<K>, key: T -> K)
    ensures AllItems(BuildGroups(ks, [], key)) == []
  {
    if ks != [] {
      EmptyGroups(ks[1..], key);
    }
  }

  /** Adding an element at the end adds it to the group of its key, if that key is listed once. */
  lemma {:induction false} AllItemsAppend<K, T(!new)>(ks: seq<K>, xs: seq<T>, x: T, key: T -> K)
    requires Distinct(ks)
    ensures multiset(AllItems(BuildGroups(ks, xs + [x], key)))
         == multiset(AllItems(BuildGroups(ks, xs, key))) + (if key(x) in ks then multiset{x} else multiset{})
  {
    if ks != [] {
      var k, rest := ks[0], ks[1..];
      DistinctTail(ks);
      AllItemsAppend(rest, xs, x, key);
      ItemsWithKeyAppend(xs, x, key, k);
      AllItemsCons(ks, xs, key);
      AllItemsCons(ks, xs + [x], key);
      var own, others := multiset(ItemsWithKey(xs, key, k)), multiset(AllItems(BuildGroups(rest, xs, key)));
      var addOwn: multiset<T> := if key(x) == k then multiset{x} else multiset{};
      var addOthers: multiset<T> := if key(x) in rest then multiset{x} else multiset{};
      assert multiset(ItemsWithKey(xs + [x], key, k)) == own + addOwn;
      assert addOwn + addOthers == if key(x) in ks then multiset{x} else multiset{};
      calc {
        multiset(AllItems(BuildGroups(ks, xs + [x], key)));
        multiset(ItemsWithKey(xs + [x], key, k) + AllItems(BuildGroups(rest, xs + [x], key)));
        multiset(ItemsWithKey(xs + [x], key, k)) + multiset(AllItems(BuildGroups(rest, xs + [x], key)));
        (own + addOwn) + (others + addOthers);
        (own + others) + (addOwn + addOthers);
        multiset(ItemsWithKey(xs, key, k) + AllItems(BuildGroups(rest, xs, key))) + (addOwn + addOthers);
        multiset(AllItems(BuildGroups(ks, xs, key))) + (addOwn + addOthers);
      }
    }
  }

  lemma AllItemsCons<K, T(!new)>(ks: seq<K>, ys: seq<T>, key: T -> K)
    requires ks != []
    ensures AllItems(BuildGroups(ks, ys, key)) == ItemsWithKey(ys, key, ks[0]) + AllItems(BuildGroups(ks[1..], ys, key))
  {
  }

  lemma DistinctTail<K>(ks: seq<K>)
    requires Distinct(ks) && ks != []
    ensures Distinct(ks[1..]) && ks[0] !in ks[1..]
    ensures forall k :: k in ks <==> k == ks[0] || k in ks[1..]
  {
    var rest := ks[1..];
    forall i, j | 0 <= i < j < |rest| ensures rest[i] != rest[j] {
      assert rest[i] == ks[i + 1] && rest[j] == ks[j + 1];
    }
    forall i | 0 <= i < |rest| ensures rest[i] != ks[0] {
      assert rest[i] == ks[i + 1];
    }
    assert ks == [ks[0]] + rest;
  }

  /** The groups partition the input: together they hold each element exactly as often. */
  lemma GroupsPartition<K, T(!new)>(ks: seq<K>, xs: seq<T>, key: T -> K)
    requires Distinct(ks)
    requires forall i :: 0 <= i < |xs| ==> key(xs[i]) in ks
    ensures multiset(AllItems(BuildGroups(ks, xs, key))) == multiset(xs)
  {
    AllItemsMultiset(ks, xs, key);
    ItemsWithKeyInAll(xs, key, ks);
  }

  lemma {:induction false} GroupTotalsOfAllItems<K, T>(gs: seq<Group<K, T>>, f: T -> int)
    ensures GroupTotals(gs, f) == SumBy(AllItems(gs), f)
  {
    if gs != [] {
      GroupTotalsOfAllItems(gs[1..], f);
      SumByAppend(gs[0].items, AllItems(gs[1..]), f);
    }
  }

  /** Group totals add up to the total over the input. */
  lemma GroupTotalsSum<K, T(!new)>(ks: seq<K>, xs: seq<T>, key: T -> K, f: T -> int)
    requires Distinct(ks)
    requires forall i :: 0 <= i < |xs| ==> key(xs[i]) in ks
    ensures GroupTotals(BuildGroups(ks, xs, key), f) == SumBy(xs, f)
  {
    GroupsPartition(ks, xs, key);
    GroupTotalsOfAllItems(BuildGroups(ks, xs, key), f);
    SumByPermutation(AllItems(BuildGroups(ks, xs, key)), xs, f);
  }

  /** No element carries the key: its group would be empty. */
  lemma {:induction false} ItemsWithKeyAbsent<K, T(!new)>(xs: seq<T>, key: T -> K, k: K)
    requires forall i :: 0 <= i < |xs| ==> key(xs[i]) != k
    ensures ItemsWithKey(xs, key, k) == []
  {
    if xs != [] {
      assert forall i :: 0 <= i < |xs[1..]| ==> xs[1..][i] == xs[i + 1];
      ItemsWithKeyAbsent(xs[1..], key, k);
    }
  }

  /** A list whose entries carry, one for one, the totals of the groups adds up to the group totals. */
  lemma {:induction false} SumMatchesGroups<K, T, U>(us: seq<U>, gs: seq<Group<K, T>>, g: U -> int, f: T -> int)
    requires |us| == |gs|
    requires forall i :: 0 <= i < |us| ==> g(us[i]) == SumBy(gs[i].items, f)
    ensures SumBy(us, g) == GroupTotals(gs, f)
  {
    if us != [] {
      SumMatchesGroups(us[1..], gs[1..], g, f);
    }
  }

  /** `ks` lists each key of `xs` exactly once, and no other key. */
  ghost predicate ExactKeys<K(!new), T>(ks: seq<K>, xs: seq<T>, key: T -> K)
  {
    && Distinct(ks)
    && (forall i :: 0 <= i < |xs| ==> key(xs[i]) in ks)
    && (forall k :: k in ks ==> exists i :: 0 <= i < |xs| && key(xs[i]) == k)
  }

  /** `ExactKeys` stated on membership instead of positions. */
  lemma ExactKeysMembers<K(!new), T(!new)>(ks: seq<K>, xs: seq<T>, key: T -> K)
    requires ExactKeys(ks, xs, key)
    ensures forall x :: x in xs ==> key(x) in ks
    ensures forall k :: k in ks ==> exists x :: x in xs && key(x) == k
  {
    forall k | k in ks ensures exists x :: x in xs && key(x) == k {
      var i :| 0 <= i < |xs| && key(xs[i]) == k;
      assert xs[i] in xs;
    }
  }

  lemma GroupByKeys<K(!new), T(!new)>(xs: seq<T>, key: T -> K)
    ensures ExactKeys(DistinctKeys(xs, key), xs, key)
  {
  }

  /** Sorting the keys keeps them distinct and keeps all of them. */
  lemma SortedKeys<K(!new), T(!new)>(xs: seq<T>, key: T -> K, lt: (K, K) -> bool)
    ensures ExactKeys(SortBy(DistinctKeys(xs, key), lt), xs, key)
  {
    SortKeepsDistinct(DistinctKeys(xs, key), lt);
  }

  /** Keys of `toSortedMap` come strictly in the comparator's order. */
  lemma SortedGroupsStrict<K(!new), T(!new)>(xs: seq<T>, key: T -> K, lt: (K, K) -> bool)
    requires StrictOrder(lt) && Total(lt)
    ensures var gs := GroupBySorted(xs, key, lt);
      forall i, j :: 0 <= i < j < |gs| ==> lt(gs[i].key, gs[j].key)
  {
    var ks := SortBy(DistinctKeys(xs, key), lt);
    SortIsSorted(DistinctKeys(xs, key), lt);
    SortedKeys(xs, key, lt);
    SortedDistinctIsStrict(ks, lt);
  }

  /** Over exactly the keys of the input, every group is non-empty and groups keys are distinct. */
  lemma GroupsNonEmpty<K(!new), T(!new)>(ks: seq<K>, xs: seq<T>, key: T -> K)
    requires ExactKeys(ks, xs, key)
    ensures var gs := BuildGroups(ks, xs, key);
      && (forall i :: 0 <= i < |gs| ==> gs[i].items != [])
      && (forall i, j :: 0 <= i < j < |gs| ==> gs[i].key != gs[j].key)
  {
    var gs := BuildGroups(ks, xs, key);
    forall i | 0 <= i < |gs|
      ensures gs[i].items != []
    {
      assert ks[i] in ks;
      var j :| 0 <= j < |xs| && key(xs[j]) == ks[i];
      ItemsWithKeyNonEmpty(xs, key, j);
    }
  }

  /** Each element sits in the group of its key, and only there. */
  lemma GroupsPlaceEachElement<K(!new), T(!new)>(ks: seq<K>, xs: seq<T>, key: T -> K)
    requires ExactKeys(ks, xs, key)
    ensures var gs := BuildGroups(ks, xs, key);
      && (forall i :: 0 <= i < |xs| ==> exists g :: g in gs && g.key == key(xs[i]) && xs[i] in g.items)
      && (forall g, x :: g in gs && x in g.items ==> x in xs && key(x) == g.key)
  {
    var gs := BuildGroups(ks, xs, key);
    forall i | 0 <= i < |xs|
      ensures exists g :: g in gs && g.key == key(xs[i]) && xs[i] in g.items
    {
      var k :| 0 <= k < |ks| && ks[k] == key(xs[i]);
      ItemsWithKeyMembers(xs, key, ks[k]);
      assert xs[i] in xs;
      assert gs[k] in gs;
    }
    forall g, x | g in gs && x in g.items
      ensures x in xs && key(x) == g.key
    {
      var k :| 0 <= k < |gs| && gs[k] == g;
      ItemsWithKeyMembers(xs, key, ks[k]);
    }
  }

  // ---------------------------------------------- sorting groups by key

  /** `glt` orders groups as `lt` orders their keys. */
  ghost predicate OrdersByKey<K(!new), T(!new)>(glt: (Group<K, T>, Group<K, T>) -> bool, lt: (K, K) -> bool)
  {
    forall a: Group<K, T>, b: Group<K, T> :: glt(a, b) == lt(a.key, b.key)
  }

  /** Inserting a key's group among the groups is inserting the key among the keys. */
  lemma {:induction false} InsertGroup<K(!new), T(!new)>(k: K, ks: seq<K>, xs: seq<T>, key: T -> K,
                                                       lt: (K, K) -> bool, glt: (Group<K, T>, Group<K, T>) -> bool)
    requires OrdersByKey(glt, lt)
    ensures InsertBy(Group(k, ItemsWithKey(xs, key, k)), BuildGroups(ks, xs, key), glt)
         == BuildGroups(InsertBy(k, ks, lt), xs, key)
  {
    var g := Group(k, ItemsWithKey(xs, key, k));
    var gs := BuildGroups(ks, xs, key);
    if ks == [] {
    } else if lt(k, ks[0]) {
      assert glt(g, gs[0]);
      assert InsertBy(k, ks, lt) == [k] + ks;
      assert ([k] + ks)[1..] == ks;
    } else {
      assert !glt(g, gs[0]);
      InsertGroup(k, ks[1..], xs, key, lt, glt);
      assert gs[1..] == BuildGroups(ks[1..], xs, key);
      var rest := InsertBy(k, ks[1..], lt);
      assert InsertBy(k, ks, lt) == [ks[0]] + rest;
      assert ([ks[0]] + rest)[1..] == rest;
    }
  }

  /** Groups sorted by key are the groups of the sorted keys; the sort is stable on both sides. */
  lemma {:induction false} SortGroupsByKey<K(!new), T(!new)>(ks: seq<K>, xs: seq<T>, key: T -> K,
                                                           lt: (K, K) -> bool, glt: (Group<K, T>, Group<K, T>) -> bool)
    requires OrdersByKey(glt, lt)
    ensures SortBy(BuildGroups(ks, xs, key), glt) == BuildGroups(SortBy(ks, lt), xs, key)
  {
    if ks != [] {
      var n := |ks| - 1;
      var gs := BuildGroups(ks, xs, key);
      assert gs[..n] == BuildGroups(ks[..n], xs, key);
      SortGroupsByKey(ks[..n], xs, key, lt, glt);
      InsertGroup(ks[n], SortBy(ks[..n], lt), xs, key, lt, glt);
    }
  }

  /** `groupBy(key).sortedWith(glt)` with `glt` comparing keys is `GroupBySorted`. */
  lemma GroupByThenSort<K(!new), T(!new)>(xs: seq<T>, key: T -> K, lt: (K, K) -> bool,
                                          glt: (Group<K, T>, Group<K, T>) -> bool)
    requires OrdersByKey(glt, lt)
    ensures SortBy(GroupBy(xs, key), glt) == GroupBySorted(xs, key, lt)
  {
    SortGroupsByKey(DistinctKeys(xs, key), xs, key, lt, glt);
  }
}
