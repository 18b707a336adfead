/**
 * What the queries of `CategoryDao` return, as functions of the table's rows
 * (kept in key order, see `Store`). The `type` column holds the enum's name,
 * so `ORDER BY type` compares "EXPENSE" with "INCOME" as text.
 */
module CategoryDao {
  import opened Wrappers
  import opened Seqs
  import opened Sorting
  import opened Text
  import opened Entities
  import opened Converters
  import opened Store

  function WithCategoryId(c: Category, k: int): Category { c.(id := k) }

  lemma CategoryKey()
    ensures KeyField(CategoryId, WithCategoryId)
  {
  }

  /** `ORDER BY type, name`, both as text. */
  predicate TypeThenName(a: Category, b: Category)
  {
    LexLess(TypeName(a.ctype), TypeName(b.ctype))
    || (TypeName(a.ctype) == TypeName(b.ctype) && LexLess(a.name, b.name))
  }

  /** `ORDER BY name`. */
  predicate NameLess(a: Category, b: Category)
  {
    LexLess(a.name, b.name)
  }

  /** `WHERE type = :type`: the parameter goes through the same converter as the column. */
  predicate HasType(c: Category, t: TransactionType)
  {
    TypeName(c.ctype) == TypeName(t)
  }

  predicate IsDefaultCategory(c: Category) { c.isDefault }

  lemma TypeThenNameIsStrictOrder()
    ensures StrictOrder(TypeThenName)
  {
    forall a: Category ensures !TypeThenName(a, a) {
      LexIrreflexive(TypeName(a.ctype));
      LexIrreflexive(a.name);
    }
    forall a: Category, b: Category, c: Category | TypeThenName(a, b) && TypeThenName(b, c)
      ensures TypeThenName(a, c)
    {
      if LexLess(TypeName(a.ctype), TypeName(b.ctype)) && LexLess(TypeName(b.ctype), TypeName(c.ctype)) {
        LexTransitive(TypeName(a.ctype), TypeName(b.ctype), TypeName(c.ctype));
      } else if LexLess(a.name, b.name) && LexLess(b.name, c.name) {
        LexTransitive(a.name, b.name, c.name);
      }
    }
  }

  lemma NameLessIsStrictOrder()
    ensures StrictOrder(NameLess)
  {
    forall a: Category ensures !NameLess(a, a) {
      LexIrreflexive(a.name);
    }
    forall a: Category, b: Category, c: Category | NameLess(a, b) && NameLess(b, c)
      ensures NameLess(a, c)
    {
      LexTransitive(a.name, b.name, c.name);
    }
  }

  // ------------------------------------------------------------- queries

  /** `getAllCategories` and `getAllCategoriesOnce`: every row, by type name, then by name. */
  function AllCategories(rows: seq<Category>): (r: seq<Category>)
    ensures multiset(r) == multiset(rows)
    ensures SortedBy(r, TypeThenName)
  {
    TypeThenNameIsStrictOrder();
    SortIsSorted(rows, TypeThenName);
    SortBy(rows, TypeThenName)
  }

  /** `getCategoriesByType(type)`: the rows of that type, each as often as stored, by name. */
  function CategoriesByType(rows: seq<Category>, t: TransactionType): (r: seq<Category>)
    ensures forall c :: multiset(r)[c] == if c.ctype == t then multiset(rows)[c] else 0
    ensures SortedBy(r, NameLess)
  {
    var kept := Filter(rows, c => HasType(c, t));
    NameLessIsStrictOrder();
    SortIsSorted(kept, NameLess);
    forall c ensures multiset(kept)[c] == if c.ctype == t then multiset(rows)[c] else 0 {
      FilterMultiset(rows, c => HasType(c, t), c);
      TypeRoundTrip(c.ctype);
      TypeRoundTrip(t);
    }
    SortBy(kept, NameLess)
  }

  /** `getDefaultCategories()`: the default rows, in key order. */
  function DefaultCategories(rows: seq<Category>): (r: seq<Category>)
    ensures forall c :: multiset(r)[c] == if c.isDefault then multiset(rows)[c] else 0
  {
    forall c ensures multiset(Filter(rows, IsDefaultCategory))[c] == if c.isDefault then multiset(rows)[c] else 0 {
      FilterMultiset(rows, IsDefaultCategory, c);
    }
    Filter(rows, IsDefaultCategory)
  }

  /** `getCategoryById(id)`. */
  function CategoryById(rows: seq<Category>, id: int): Option<Category>
  {
    FindById(rows, CategoryId, id)
  }

  /** The rows `deleteAllNonDefault` leaves: `DELETE … WHERE isDefault = 0`. */
  function AfterDeleteNonDefault(rows: seq<Category>): seq<Category>
  {
    Filter(rows, IsDefaultCategory)
  }

  // -------------------------------------------------------------- lemmas

  /** Types are sorted as their names, and "EXPENSE" comes before "INCOME". */
  lemma ExpenseBeforeIncome(rows: seq<Category>)
    ensures var r := AllCategories(rows);
      forall i, j :: 0 <= i < j < |r| ==> !(r[i].ctype == Income && r[j].ctype == Expense)
    ensures var r := AllCategories(rows);
      forall i, j :: 0 <= i < j < |r| && r[i].ctype == r[j].ctype ==> !LexLess(r[j].name, r[i].name)
  {
    assert LexLess("EXPENSE", "INCOME");
  }

  /** After `deleteAllNonDefault` a key holds its row, unchanged, iff that row is a default category. */
  lemma DeleteNonDefaultKeepsDefaults(rows: seq<Category>, k: int)
    requires IdsAscending(rows, CategoryId)
    ensures var before := CategoryById(rows, k);
      CategoryById(AfterDeleteNonDefault(rows), k) == if before.Some? && before.value.isDefault then before else None
    ensures DefaultCategories(AfterDeleteNonDefault(rows)) == DefaultCategories(rows)
    ensures forall c :: c in AfterDeleteNonDefault(rows) <==> c in rows && c.isDefault
  {
    FindAfterFilter(rows, IsDefaultCategory, CategoryId, k);
    FilterTwice(rows);
  }

  lemma {:induction false} FilterTwice(rows: seq<Category>)
    ensures Filter(Filter(rows, IsDefaultCategory), IsDefaultCategory) == Filter(rows, IsDefaultCategory)
  {
    if rows != [] {
      FilterTwice(rows[1..]);
      FilterAppend(if rows[0].isDefault then [rows[0]] else [], Filter(rows[1..], IsDefaultCategory), IsDefaultCategory);
    }
  }

  /** `getCategoryById` gives the stored row with that key, or null when there is none. */
  lemma CategoryByIdFinds(rows: seq<Category>, id: int)
    requires IdsAscending(rows, CategoryId)
    ensures CategoryById(rows, id).Some? <==> exists i :: 0 <= i < |rows| && rows[i].id == id
    ensures forall i :: 0 <= i < |rows| && rows[i].id == id ==> CategoryById(rows, id) == Some(rows[i])
  {
    forall i | 0 <= i < |rows| && rows[i].id == id ensures CategoryById(rows, id) == Some(rows[i]) {
      FindStored(rows, CategoryId, i);
    }
  }
}
