/**
 * A Room table whose primary key is an auto-generated `Long` (`INTEGER PRIMARY
 * KEY AUTOINCREMENT`): `@Insert(onConflict = REPLACE)`, `@Update`, `@Delete`
 * and the plain `DELETE` statements. Rows are kept in rowid order, which for
 * such a table is key order. `FindById` is the table seen as a map from key
 * to row; the lemmas say what each write does to that map.
 */
module Store {
  import opened Wrappers
  import opened Seqs

  /** Keys strictly increase along the rows, so no key occurs twice. */
  ghost predicate IdsAscending<T(!new)>(rows: seq<T>, id: T -> int)
  {
    forall i, j :: 0 <= i < j < |rows| ==> id(rows[i]) < id(rows[j])
  }

  /** `withId` replaces the key and nothing the key function sees of it otherwise. */
  ghost predicate KeyField<T(!new)>(id: T -> int, withId: (T, int) -> T)
  {
    forall x, k :: id(withId(x, k)) == k
  }

  /** `SELECT * … WHERE id = :k`: the row with that key, or null. */
  function FindById<T(!new)>(rows: seq<T>, id: T -> int, k: int): (r: Option<T>)
    ensures r.Some? ==> r.value in rows && id(r.value) == k
    ensures r.None? <==> forall i :: 0 <= i < |rows| ==> id(rows[i]) != k
  {
    if rows == [] then None
    else if id(rows[0]) == k then Some(rows[0])
    else
      var r := FindById(rows[1..], id, k);
      assert forall i :: 1 <= i < |rows| ==> rows[i] == rows[1..][i - 1];
      r
  }

  /** `INSERT OR REPLACE`: a row with the same key is replaced in place, otherwise `x` joins in key order. */
  function Upsert<T(!new)>(rows: seq<T>, x: T, id: T -> int): (r: seq<T>)
    ensures x in r
    ensures forall y :: y in r ==> y == x || y in rows
  {
    if rows == [] then [x]
    else if id(x) < id(rows[0]) then [x] + rows
    else if id(x) == id(rows[0]) then [x] + rows[1..]
    else [rows[0]] + Upsert(rows[1..], x, id)
  }

  /** `UPDATE … WHERE id = :id`: the row with `x`'s key becomes `x`; no such row, no change. */
  function ReplaceById<T(!new)>(rows: seq<T>, x: T, id: T -> int): (r: seq<T>)
    ensures |r| == |rows|
    ensures forall i :: 0 <= i < |rows| ==> r[i] == if id(rows[i]) == id(x) then x else rows[i]
  {
    if rows == [] then []
    else [if id(rows[0]) == id(x) then x else rows[0]] + ReplaceById(rows[1..], x, id)
  }

  /** `DELETE … WHERE id = :k`. */
  function RemoveById<T(!new)>(rows: seq<T>, k: int, id: T -> int): (r: seq<T>)
    ensures |r| <= |rows|
    ensures forall y :: y in r <==> y in rows && id(y) != k
  {
    if rows == [] then []
    else (if id(rows[0]) != k then [rows[0]] else []) + RemoveById(rows[1..], k, id)
  }

  /** The key `insert` stores the row under: key 0 asks SQLite for the next one. */
  function AssignedId<T(!new)>(nextId: int, x: T, id: T -> int): int
  {
    if id(x) == 0 then nextId else id(x)
  }

  /** AUTOINCREMENT never hands out a key at or below the largest one used so far. */
  function NextIdAfter(nextId: int, used: int): (n: int)
    ensures n >= nextId && n > used
  {
    if used >= nextId then used + 1 else nextId
  }

  /** The table (rows, next key) after `insert(x)`. */
  function InsertOne<T(!new)>(rows: seq<T>, nextId: int, x: T, id: T -> int, withId: (T, int) -> T): (seq<T>, int)
  {
    var k := AssignedId(nextId, x, id);
    (Upsert(rows, withId(x, k), id), NextIdAfter(nextId, k))
  }

  /** The table after `insertAll(xs)`: one `insert` after the other, in list order. */
  function InsertAllRows<T(!new)>(rows: seq<T>, nextId: int, xs: seq<T>, id: T -> int, withId: (T, int) -> T): (seq<T>, int)
  {
    if xs == [] then (rows, nextId)
    else
      var before := InsertAllRows(rows, nextId, xs[..|xs| - 1], id, withId);
      InsertOne(before.0, before.1, xs[|xs| - 1], id, withId)
  }

  /** `xs` stored under the consecutive keys `first`, `first + 1`, … */
  function Numbered<T(!new)>(xs: seq<T>, first: int, withId: (T, int) -> T): (r: seq<T>)
    ensures |r| == |xs|
    ensures forall i :: 0 <= i < |xs| ==> r[i] == withId(xs[i], first + i)
  {
    if xs == [] then [] else Numbered(xs[..|xs| - 1], first, withId) + [withId(xs[|xs| - 1], first + |xs| - 1)]
  }

  // --------------------------------------------------------------- lemmas

  lemma AscendingTail<T(!new)>(rows: seq<T>, id: T -> int)
    requires rows != [] && IdsAscending(rows, id)
    ensures IdsAscending(rows[1..], id)
    ensures forall y :: y in rows[1..] ==> id(rows[0]) < id(y)
  {
    forall y | y in rows[1..] ensures id(rows[0]) < id(y) {
      var j :| 0 <= j < |rows[1..]| && rows[1..][j] == y;
      assert rows[j + 1] == y;
    }
  }

  /** In a table with distinct keys every row is found under its own key. */
  lemma {:induction false} FindStored<T(!new)>(rows: seq<T>, id: T -> int, i: int)
    requires IdsAscending(rows, id) && 0 <= i < |rows|
    ensures FindById(rows, id, id(rows[i])) == Some(rows[i])
  {
    if i > 0 {
      AscendingTail(rows, id);
      assert rows[1..][i - 1] == rows[i];
      FindStored(rows[1..], id, i - 1);
    }
  }

  lemma {:induction false} UpsertAscending<T(!new)>(rows: seq<T>, x: T, id: T -> int)
    requires IdsAscending(rows, id)
    ensures IdsAscending(Upsert(rows, x, id), id)
  {
    if rows == [] {
    } else if id(x) < id(rows[0]) {
      forall y | y in rows ensures id(x) < id(y) {
        var j :| 0 <= j < |rows| && rows[j] == y;
        assert j == 0 || id(rows[0]) < id(rows[j]);
      }
      ConsAscending(x, rows, id);
    } else if id(x) == id(rows[0]) {
      AscendingTail(rows, id);
      ConsAscending(x, rows[1..], id);
    } else {
      AscendingTail(rows, id);
      UpsertAscending(rows[1..], x, id);
      ConsAscending(rows[0], Upsert(rows[1..], x, id), id);
    }
  }

  /** REPLACE on the key: afterwards the key holds `x` and every other key holds what it held. */
  lemma {:induction false} FindAfterUpsert<T(!new)>(rows: seq<T>, x: T, id: T -> int, k: int)
    requires IdsAscending(rows, id)
    ensures FindById(Upsert(rows, x, id), id, k) == if k == id(x) then Some(x) else FindById(rows, id, k)
  {
    if rows != [] {
      AscendingTail(rows, id);
      if id(x) < id(rows[0]) {
      } else if id(x) == id(rows[0]) {
        if k != id(x) {
          assert FindById(rows, id, k) == FindById(rows[1..], id, k);
        }
      } else {
        FindAfterUpsert(rows[1..], x, id, k);
      }
    }
  }

  /** A key above every stored one is appended at the end. */
  lemma {:induction false} UpsertFresh<T(!new)>(rows: seq<T>, x: T, id: T -> int)
    requires forall i :: 0 <= i < |rows| ==> id(rows[i]) < id(x)
    ensures Upsert(rows, x, id) == rows + [x]
  {
    if rows != [] {
      assert forall i :: 0 <= i < |rows[1..]| ==> rows[1..][i] == rows[i + 1];
      UpsertFresh(rows[1..], x, id);
      assert [rows[0]] + (rows[1..] + [x]) == rows + [x];
    }
  }

  lemma {:induction false} ReplaceAscending<T(!new)>(rows: seq<T>, x: T, id: T -> int)
    requires IdsAscending(rows, id)
    ensures IdsAscending(ReplaceById(rows, x, id), id)
  {
  }

  /** `update` changes the row under `x`'s key to `x`, if there is one, and nothing else. */
  lemma {:induction false} FindAfterReplace<T(!new)>(rows: seq<T>, x: T, id: T -> int, k: int)
    requires IdsAscending(rows, id)
    ensures FindById(ReplaceById(rows, x, id), id, k)
            == if k == id(x) && FindById(rows, id, k).Some? then Some(x) else FindById(rows, id, k)
  {
    if rows != [] {
      AscendingTail(rows, id);
      FindAfterReplace(rows[1..], x, id, k);
      assert ReplaceById(rows, x, id)[1..] == ReplaceById(rows[1..], x, id);
    }
  }

  /** `update` of a key that is not stored leaves the table as it was. */
  lemma {:induction false} ReplaceAbsent<T(!new)>(rows: seq<T>, x: T, id: T -> int)
    requires FindById(rows, id, id(x)).None?
    ensures ReplaceById(rows, x, id) == rows
  {
  }

  /** `delete` of a key that is not stored leaves the table as it was. */
  lemma {:induction false} RemoveAbsent<T(!new)>(rows: seq<T>, k: int, id: T -> int)
    requires FindById(rows, id, k).None?
    ensures RemoveById(rows, k, id) == rows
  {
    if rows != [] {
      RemoveAbsent(rows[1..], k, id);
    }
  }

  /** A row below every key of an ascending table can go in front of it. */
  lemma ConsAscending<T(!new)>(x: T, tail: seq<T>, id: T -> int)
    requires IdsAscending(tail, id) && forall y :: y in tail ==> id(x) < id(y)
    ensures IdsAscending([x] + tail, id)
  {
    var r := [x] + tail;
    forall i, j | 0 <= i < j < |r| ensures id(r[i]) < id(r[j]) {
      assert r[j] == tail[j - 1];
      if i > 0 {
        assert r[i] == tail[i - 1];
      }
    }
  }

  lemma {:induction false} RemoveSubsequence<T(!new)>(rows: seq<T>, k: int, id: T -> int)
    requires IdsAscending(rows, id)
    ensures IdsAscending(RemoveById(rows, k, id), id)
  {
    if rows != [] {
      AscendingTail(rows, id);
      RemoveSubsequence(rows[1..], k, id);
      if id(rows[0]) != k {
        ConsAscending(rows[0], RemoveById(rows[1..], k, id), id);
      } else {
        assert RemoveById(rows, k, id) == RemoveById(rows[1..], k, id);
      }
    }
  }

  /** `delete` removes the key and leaves every other key as it was. */
  lemma {:induction false} FindAfterRemove<T(!new)>(rows: seq<T>, key: int, id: T -> int, k: int)
    requires IdsAscending(rows, id)
    ensures FindById(RemoveById(rows, key, id), id, k) == if k == key then None else FindById(rows, id, k)
  {
    if rows != [] {
      AscendingTail(rows, id);
      FindAfterRemove(rows[1..], key, id, k);
      if id(rows[0]) == key {
        assert RemoveById(rows, key, id) == RemoveById(rows[1..], key, id);
      } else {
        assert RemoveById(rows, key, id) == [rows[0]] + RemoveById(rows[1..], key, id);
      }
    }
  }

  lemma {:induction false} FilterAscending<T(!new)>(rows: seq<T>, keep: T -> bool, id: T -> int)
    requires IdsAscending(rows, id)
    ensures IdsAscending(Filter(rows, keep), id)
  {
    if rows != [] {
      AscendingTail(rows, id);
      FilterAscending(rows[1..], keep, id);
      if keep(rows[0]) {
        ConsAscending(rows[0], Filter(rows[1..], keep), id);
      } else {
        assert Filter(rows, keep) == Filter(rows[1..], keep);
      }
    }
  }

  /** `DELETE … WHERE NOT keep`: a key survives, with its row unchanged, iff its row is kept. */
  lemma {:induction false} FindAfterFilter<T(!new)>(rows: seq<T>, keep: T -> bool, id: T -> int, k: int)
    requires IdsAscending(rows, id)
    ensures FindById(Filter(rows, keep), id, k)
            == if FindById(rows, id, k).Some? && keep(FindById(rows, id, k).value) then FindById(rows, id, k) else None
  {
    if rows != [] {
      AscendingTail(rows, id);
      FindAfterFilter(rows[1..], keep, id, k);
      if keep(rows[0]) {
        assert Filter(rows, keep) == [rows[0]] + Filter(rows[1..], keep);
      } else {
        assert Filter(rows, keep) == Filter(rows[1..], keep);
        if id(rows[0]) == k {
          assert FindById(rows[1..], id, k).None?;
        }
      }
    }
  }

  /** An insert with key 0 gets a key no stored row has, and its row goes to the end. */
  lemma GeneratedKeyIsFresh<T(!new)>(rows: seq<T>, nextId: int, x: T, id: T -> int, withId: (T, int) -> T)
    requires forall i :: 0 <= i < |rows| ==> id(rows[i]) < nextId
    requires id(x) == 0 && id(withId(x, nextId)) == nextId
    ensures FindById(rows, id, nextId).None?
    ensures InsertOne(rows, nextId, x, id, withId) == (rows + [withId(x, nextId)], nextId + 1)
  {
    UpsertFresh(rows, withId(x, nextId), id);
  }

  /**
   * `insertAll` of new rows (key 0) into a table whose keys are all below
   * `nextId` appends them, in list order, under the keys `nextId`, `nextId + 1`, …
   */
  lemma {:induction false} InsertAllFresh<T(!new)>(rows: seq<T>, nextId: int, xs: seq<T>, id: T -> int,
                                                   withId: (T, int) -> T)
    requires KeyField(id, withId)
    requires forall i :: 0 <= i < |rows| ==> id(rows[i]) < nextId
    requires forall i :: 0 <= i < |xs| ==> id(xs[i]) == 0
    ensures InsertAllRows(rows, nextId, xs, id, withId) == (rows + Numbered(xs, nextId, withId), nextId + |xs|)
  {
    if xs != [] {
      var init, last := xs[..|xs| - 1], xs[|xs| - 1];
      var n := nextId + |init|;
      var before := rows + Numbered(init, nextId, withId);
      assert InsertAllRows(rows, nextId, init, id, withId) == (before, n) by {
        assert forall i :: 0 <= i < |init| ==> init[i] == xs[i];
        InsertAllFresh(rows, nextId, init, id, withId);
      }
      assert InsertOne(before, n, last, id, withId) == (before + [withId(last, n)], n + 1) by {
        NumberedBelow(rows, nextId, init, id, withId);
        GeneratedKeyIsFresh(before, n, last, id, withId);
      }
      assert before + [withId(last, n)] == rows + Numbered(xs, nextId, withId) by {
        NumberedSnoc(xs, nextId, withId);
      }
    } else {
      assert rows + [] == rows;
    }
  }

  /** `Numbered` grows at the end: the last element takes the next key. */
  lemma NumberedSnoc<T(!new)>(xs: seq<T>, first: int, withId: (T, int) -> T)
    requires xs != []
    ensures Numbered(xs, first, withId) == Numbered(xs[..|xs| - 1], first, withId) + [withId(xs[|xs| - 1], first + |xs| - 1)]
  {
  }

  /** Rows below `nextId` followed by new rows numbered from `nextId` are all below the next free key. */
  lemma NumberedBelow<T(!new)>(rows: seq<T>, nextId: int, xs: seq<T>, id: T -> int, withId: (T, int) -> T)
    requires KeyField(id, withId)
    requires forall i :: 0 <= i < |rows| ==> id(rows[i]) < nextId
    ensures var s := rows + Numbered(xs, nextId, withId);
      forall i :: 0 <= i < |s| ==> id(s[i]) < nextId + |xs|
  {
    var s := rows + Numbered(xs, nextId, withId);
    forall i | 0 <= i < |s| ensures id(s[i]) < nextId + |xs| {
      if i >= |rows| {
        assert s[i] == withId(xs[i - |rows|], nextId + (i - |rows|));
      }
    }
  }

  // ---------------------------------------------------------------- the table

  /** One table: its rows in key order and the next key AUTOINCREMENT hands out. */
  class Table<T(==,!new)> {
    const id: T -> int
    const withId: (T, int) -> T
    var rows: seq<T>
    var nextId: int

    ghost predicate Valid()
      reads this
    {
      && KeyField(id, withId)
      && IdsAscending(rows, id)
      && 1 <= nextId
      && (forall i :: 0 <= i < |rows| ==> id(rows[i]) < nextId)
    }

    /** A freshly created, empty table. */
    constructor (id: T -> int, withId: (T, int) -> T)
      requires KeyField(id, withId)
      ensures Valid()
      ensures this.id == id && this.withId == withId && rows == [] && nextId == 1
    {
      this.id := id;
      this.withId := withId;
      rows := [];
      nextId := 1;
    }

    /** `@Insert(onConflict = REPLACE)`; returns the row's key. */
    method Insert(x: T) returns (k: int)
      requires Valid()
      modifies this
      ensures Valid()
      ensures k == AssignedId(old(nextId), x, id)
      ensures (rows, nextId) == InsertOne(old(rows), old(nextId), x, id, withId)
    {
      k := AssignedId(nextId, x, id);
      UpsertAscending(rows, withId(x, k), id);
      var n := NextIdAfter(nextId, k);
      forall y | y in Upsert(rows, withId(x, k), id) ensures id(y) < n {
      }
      rows := Upsert(rows, withId(x, k), id);
      nextId := n;
    }

    /** `@Insert(onConflict = REPLACE)` of a list: the inserts one after the other. */
    method InsertAll(xs: seq<T>)
      requires Valid()
      modifies this
      ensures Valid()
      ensures (rows, nextId) == InsertAllRows(old(rows), old(nextId), xs, id, withId)
    {
      var i := 0;
      while i < |xs|
        invariant 0 <= i <= |xs|
        invariant Valid()
        invariant (rows, nextId) == InsertAllRows(old(rows), old(nextId), xs[..i], id, withId)
      {
        assert xs[..i + 1][..i] == xs[..i];
        var _ := Insert(xs[i]);
        i := i + 1;
      }
      assert xs[..i] == xs;
    }

    /** `@Update`: rewrites the row with `x`'s key, if any. */
    method Update(x: T)
      requires Valid()
      modifies this
      ensures Valid()
      ensures rows == ReplaceById(old(rows), x, id) && nextId == old(nextId)
    {
      ReplaceAscending(rows, x, id);
      rows := ReplaceById(rows, x, id);
    }

    /** `@Delete`: removes the row with `x`'s key, if any. */
    method Delete(x: T)
      requires Valid()
      modifies this
      ensures Valid()
      ensures rows == RemoveById(old(rows), id(x), id) && nextId == old(nextId)
    {
      RemoveSubsequence(rows, id(x), id);
      rows := RemoveById(rows, id(x), id);
    }

    /** `DELETE FROM … WHERE NOT keep`. */
    method DeleteUnless(keep: T -> bool)
      requires Valid()
      modifies this
      ensures Valid()
      ensures rows == Filter(old(rows), keep) && nextId == old(nextId)
    {
      FilterAscending(rows, keep, id);
      rows := Filter(rows, keep);
    }

    /** `DELETE FROM …`: the table is empty; AUTOINCREMENT still remembers the keys used. */
    method DeleteAll()
      requires Valid()
      modifies this
      ensures Valid()
      ensures rows == [] && nextId == old(nextId)
    {
      rows := [];
    }
  }
}
