/**
 * The database as a whole: the two tables, and the fourteen default
 * categories the first-creation callback writes into a new database.
 */
module AppDatabase {
  import opened Wrappers
  import opened Entities
  import opened Store
  import opened TransactionDao
  import opened CategoryDao

  function Seed(name: string, ctype: TransactionType, icon: string, color: string): (c: Category)
    ensures c.id == 0 && c.isDefault && c.name == name && c.ctype == ctype && c.icon == icon && c.color == color
  {
    NewCategory(name, ctype, icon, color, true)
  }

  /** The list `populateDatabase` inserts: nine expense and five income categories. */
  const DefaultSeeds: seq<Category> := [
    Seed("Ăn uống", Expense, "🍜", "#FF5722"),
    Seed("Mua sắm", Expense, "🛒", "#E91E63"),
    Seed("Hóa đơn", Expense, "💡", "#9C27B0"),
    Seed("Đi lại", Expense, "🚗", "#3F51B5"),
    Seed("Giải trí", Expense, "🎮", "#2196F3"),
    Seed("Y tế", Expense, "💊", "#00BCD4"),
    Seed("Giáo dục", Expense, "📚", "#009688"),
    Seed("Quần áo", Expense, "👕", "#795548"),
    Seed("Khác", Expense, "📦", "#607D8B"),
    Seed("Lương", Income, "💰", "#4CAF50"),
    Seed("Thưởng", Income, "🎁", "#8BC34A"),
    Seed("Đầu tư", Income, "📈", "#CDDC39"),
    Seed("Bán hàng", Income, "🏪", "#FFC107"),
    Seed("Thu nhập khác", Income, "💵", "#FF9800")
  ]

  /** Fourteen seeds: 9 EXPENSE then 5 INCOME, all default and all new (key 0). */
  lemma SeedShape()
    ensures |DefaultSeeds| == 14
    ensures forall i :: 0 <= i < 9 ==> DefaultSeeds[i].ctype == Expense
    ensures forall i :: 9 <= i < 14 ==> DefaultSeeds[i].ctype == Income
    ensures forall i :: 0 <= i < |DefaultSeeds| ==> DefaultSeeds[i].isDefault && DefaultSeeds[i].id == 0
  {
  }

  /** `CountOfType` on the seeds: 9 expense categories and 5 income ones. */
  lemma SeedCounts()
    ensures CountOfType(DefaultSeeds, Expense) == 9 && CountOfType(DefaultSeeds, Income) == 5
  {
    SeedShape();
    SplitCounts(DefaultSeeds, 9);
  }

  /** A list of `k` expense categories followed by income ones. */
  lemma SplitCounts(cs: seq<Category>, k: nat)
    requires k <= |cs|
    requires forall i :: 0 <= i < k ==> cs[i].ctype == Expense
    requires forall i :: k <= i < |cs| ==> cs[i].ctype == Income
    ensures CountOfType(cs, Expense) == k && CountOfType(cs, Income) == |cs| - k
  {
    assert cs == cs[..k] + cs[k..];
    CountAppend(cs[..k], cs[k..], Expense);
    CountAppend(cs[..k], cs[k..], Income);
    CountUniform(cs[..k], Expense);
    CountUniform(cs[k..], Income);
  }

  /** No two seeds share a name. */
  lemma SeedNamesDistinct()
    ensures forall i, j :: 0 <= i < j < |DefaultSeeds| ==> DefaultSeeds[i].name != DefaultSeeds[j].name
  {
    var s := DefaultSeeds;
    forall i, j | 0 <= i < j < |s| ensures s[i].name != s[j].name {
      assert |s[i].name| != |s[j].name| || s[i].name[0] != s[j].name[0] || s[i].name[1] != s[j].name[1]
        || s[i].name != s[j].name;
    }
  }

  /** Both tables of one database file. */
  class Database {
    const transactions: Table<Transaction>
    const categories: Table<Category>

    ghost predicate Valid()
      reads this, transactions, categories
    {
      && transactions.Valid() && categories.Valid()
      && transactions.id == TransactionId && transactions.withId == WithTransactionId
      && categories.id == CategoryId && categories.withId == WithCategoryId
    }

    /**
     * A database created for the first time: both tables empty, then the
     * `onCreate` callback inserts the seeds, which receive the keys 1..14.
     * Opening an existing database runs no callback and is not a constructor here.
     */
    constructor Create()
      ensures Valid() && fresh(transactions) && fresh(categories)
      ensures transactions.rows == [] && transactions.nextId == 1
      ensures categories.rows == Numbered(DefaultSeeds, 1, WithCategoryId) && categories.nextId == 15
    {
      TransactionKey();
      CategoryKey();
      transactions := new Table(TransactionId, WithTransactionId);
      categories := new Table(CategoryId, WithCategoryId);
      new;
      SeedShape();
      categories.InsertAll(DefaultSeeds);
      InsertAllFresh([], 1, DefaultSeeds, CategoryId, WithCategoryId);
    }
  }

  /** After creation the categories are the seeds, each stored under its position plus one, all default. */
  lemma CreatedCategories()
    ensures var rows := Numbered(DefaultSeeds, 1, WithCategoryId);
      && |rows| == 14
      && (forall i :: 0 <= i < 14 ==> rows[i] == DefaultSeeds[i].(id := i + 1))
      && DefaultCategories(rows) == rows
      && IdsAscending(rows, CategoryId)
  {
    SeedShape();
    NumberedDefaults(DefaultSeeds);
  }

  lemma NumberedDefaults(xs: seq<Category>)
    requires forall i :: 0 <= i < |xs| ==> xs[i].isDefault
    ensures var rows := Numbered(xs, 1, WithCategoryId);
      && (forall i :: 0 <= i < |xs| ==> rows[i] == xs[i].(id := i + 1))
      && DefaultCategories(rows) == rows
      && IdsAscending(rows, CategoryId)
  {
    var rows := Numbered(xs, 1, WithCategoryId);
    forall i | 0 <= i < |xs| ensures rows[i] == xs[i].(id := i + 1) && rows[i].isDefault {
      assert rows[i] == WithCategoryId(xs[i], 1 + i);
    }
    AllDefault(rows);
    assert IdsAscending(rows, CategoryId);
  }

  lemma {:induction false} AllDefault(rows: seq<Category>)
    requires forall i :: 0 <= i < |rows| ==> rows[i].isDefault
    ensures DefaultCategories(rows) == rows
  {
    if rows != [] {
      AllDefault(rows[1..]);
    }
  }
}
