/**
 * `CategoryManagementViewModel`: the category list of one tab, the counts
 * on the tabs, the add/edit dialog, and the guarded delete.
 */
module CategoryManagement {
  import opened Wrappers
  import opened Seqs
  import opened Text
  import opened Entities
  import opened Store
  import CategoryDao

  const BlankName: string := "Vui lòng nhập tên danh mục"
  const DefaultProtected: string := "Không thể xóa danh mục mặc định"

  function SaveError(message: Option<string>): string
  {
    "Lỗi khi lưu danh mục: " + TemplateText(message)
  }

  function DeleteError(message: Option<string>): string
  {
    "Lỗi khi xóa danh mục: " + TemplateText(message)
  }

  /** `availableIcons`, the list `getRandomIcon` draws from, in its four lines of eight. */
  const Icons: seq<string> := IconLine0 + IconLine1 + IconLine2 + IconLine3

  const IconLine0: seq<string> := ["💰", "🍜", "🛒", "💡", "🚗", "🎮", "💊", "📚"]
  const IconLine1: seq<string> := ["👕", "📦", "🎁", "📈", "🏪", "💵", "🏠", "✈️"]
  const IconLine2: seq<string> := ["☕", "🎵", "🎬", "⚽", "🎨", "📱", "💻", "🍕"]
  const IconLine3: seq<string> := ["🍔", "🍰", "🎂", "🍺", "🍷", "🚌", "🚕", "🚲"]

  /** `availableColors`, the list `getRandomColor` draws from. */
  const Colors: seq<string> := [
    "#FF5722", "#E91E63", "#9C27B0", "#3F51B5",
    "#2196F3", "#00BCD4", "#009688", "#4CAF50",
    "#8BC34A", "#CDDC39", "#FFC107", "#FF9800",
    "#795548", "#607D8B"]

  /** There are 32 icons and 14 colours, none listed twice, and the dialog's defaults are among them. */
  lemma Palettes()
    ensures |Icons| == 32 && Distinct(Icons) && DefaultIcon in Icons
    ensures |Colors| == 14 && Distinct(Colors) && DefaultColor in Colors
  {
    assert Icons[0] == DefaultIcon;
    assert Colors[7] == DefaultColor;
    IconsDistinct();
    ColorsDistinct();
  }

  lemma IconsDistinct()
    ensures Distinct(Icons)
  {
    LinesDistinct();
    LinesApart0();
    LinesApart1();
    LinesApart2();
    DistinctConcat(IconLine0, IconLine1);
    DistinctConcat(IconLine0 + IconLine1, IconLine2);
    DistinctConcat(IconLine0 + IconLine1 + IconLine2, IconLine3);
  }

  lemma LinesDistinct()
    ensures Distinct(IconLine0) && Distinct(IconLine1) && Distinct(IconLine2) && Distinct(IconLine3)
  {
  }

  lemma LinesApart0()
    ensures forall x :: x in IconLine0 ==> x !in IconLine1 && x !in IconLine2 && x !in IconLine3
  {
  }

  lemma LinesApart1()
    ensures forall x :: x in IconLine1 ==> x !in IconLine2 && x !in IconLine3
  {
  }

  lemma LinesApart2()
    ensures forall x :: x in IconLine2 ==> x !in IconLine3
  {
  }

  lemma ColorsDistinct()
    ensures Distinct(Colors)
  {
  }

  // ------------------------------------------------------------- counts

  predicate IsExpenseCategory(c: Category) { c.ctype == Expense }

  predicate IsIncomeCategory(c: Category) { c.ctype == Income }

  /** `CountOfType`, the tab counts `list.count { it.type == ... }`, is the length of the matching filter. */
  lemma {:induction false} CountIsFilter(list: seq<Category>)
    ensures CountOfType(list, Expense) == |Filter(list, IsExpenseCategory)|
    ensures CountOfType(list, Income) == |Filter(list, IsIncomeCategory)|
  {
    if list != [] {
      CountIsFilter(list[1..]);
    }
  }

  /** A count depends only on which rows there are, not on their order. */
  lemma CountsIgnoreOrder(a: seq<Category>, b: seq<Category>)
    requires multiset(a) == multiset(b)
    ensures CountOfType(a, Expense) == CountOfType(b, Expense) && CountOfType(a, Income) == CountOfType(b, Income)
  {
    CountIsFilter(a);
    CountIsFilter(b);
    forall c ensures multiset(Filter(a, IsExpenseCategory))[c] == multiset(Filter(b, IsExpenseCategory))[c]
                 && multiset(Filter(a, IsIncomeCategory))[c] == multiset(Filter(b, IsIncomeCategory))[c] {
      FilterMultiset(a, IsExpenseCategory, c);
      FilterMultiset(b, IsExpenseCategory, c);
      FilterMultiset(a, IsIncomeCategory, c);
      FilterMultiset(b, IsIncomeCategory, c);
    }
    assert multiset(Filter(a, IsExpenseCategory)) == multiset(Filter(b, IsExpenseCategory));
    assert multiset(Filter(a, IsIncomeCategory)) == multiset(Filter(b, IsIncomeCategory));
    assert |multiset(Filter(a, IsExpenseCategory))| == |Filter(a, IsExpenseCategory)|;
    assert |multiset(Filter(b, IsExpenseCategory))| == |Filter(b, IsExpenseCategory)|;
    assert |multiset(Filter(a, IsIncomeCategory))| == |Filter(a, IsIncomeCategory)|;
    assert |multiset(Filter(b, IsIncomeCategory))| == |Filter(b, IsIncomeCategory)|;
  }

  /** The counts over `getAllCategories()` are the counts over the stored rows; together, all of them. */
  lemma TabCounts(cats: seq<Category>)
    ensures CountOfType(CategoryDao.AllCategories(cats), Expense) == CountOfType(cats, Expense)
    ensures CountOfType(CategoryDao.AllCategories(cats), Income) == CountOfType(cats, Income)
    ensures CountOfType(CategoryDao.AllCategories(cats), Expense) + CountOfType(CategoryDao.AllCategories(cats), Income) == |cats|
  {
    CountsIgnoreOrder(CategoryDao.AllCategories(cats), cats);
    Entities.CountsAddUp(cats);
  }

  // -------------------------------------------------------------- saves

  /** The edited category: the trimmed name and the dialog's icon and colour, everything else kept. */
  function Edited(e: Category, name: string, icon: string, color: string): (c: Category)
    ensures c.id == e.id && c.ctype == e.ctype && c.isDefault == e.isDefault
    ensures c.name == Trim(name) && c.icon == icon && c.color == color
  {
    e.(name := Trim(name), icon := icon, color := color)
  }

  /** The new category: key 0 for the store to generate, never a default one. */
  function Created(name: string, ctype: TransactionType, icon: string, color: string): (c: Category)
    ensures c.id == 0 && !c.isDefault && c.ctype == ctype
    ensures c.name == Trim(name) && c.icon == icon && c.color == color
  {
    NewCategory(Trim(name), ctype, icon, color, false)
  }

  /** A saved name is never blank: only a name that is not is accepted, and trimming it leaves text. */
  lemma SavedNameNotBlank(name: string, e: Category, ctype: TransactionType, icon: string, color: string)
    requires !IsBlank(name)
    ensures Edited(e, name, icon, color).name != [] && Created(name, ctype, icon, color).name != []
  {
  }

  /** Saving an edit keeps the key, the type and the default flag of the row it rewrites. */
  lemma EditKeepsIdentity(rows: seq<Category>, e: Category, name: string, icon: string, color: string)
    requires IdsAscending(rows, CategoryId) && e in rows
    ensures var r := CategoryDao.CategoryById(ReplaceById(rows, Edited(e, name, icon, color), CategoryId), e.id);
      && r == Some(Edited(e, name, icon, color))
      && r.value.id == e.id && r.value.ctype == e.ctype && r.value.isDefault == e.isDefault
  {
    var i :| 0 <= i < |rows| && rows[i] == e;
    FindStored(rows, CategoryId, i);
    FindAfterReplace(rows, Edited(e, name, icon, color), CategoryId, e.id);
  }

  /** Saving a new category stores a non-default row under a key no row had. */
  lemma CreateAppends(rows: seq<Category>, nextId: int, name: string, ctype: TransactionType, icon: string, color: string)
    requires forall i :: 0 <= i < |rows| ==> rows[i].id < nextId
    ensures var c := Created(name, ctype, icon, color);
      && CategoryDao.CategoryById(rows, nextId).None?
      && InsertOne(rows, nextId, c, CategoryId, CategoryDao.WithCategoryId)
         == (rows + [c.(id := nextId)], nextId + 1)
      && !c.(id := nextId).isDefault
  {
    GeneratedKeyIsFresh(rows, nextId, Created(name, ctype, icon, color), CategoryId, CategoryDao.WithCategoryId);
  }

  // ------------------------------------------------------------ deletes

  /** The rows after `onDeleteCategory(c)` when the store does not throw. */
  function AfterDelete(rows: seq<Category>, c: Category): seq<Category>
  {
    if c.isDefault then rows else RemoveById(rows, c.id, CategoryId)
  }

  /**
   * Deleting a category the list showed removes exactly its key, and never
   * a default category: every default row survives every delete.
   */
  lemma DeleteSparesDefaults(rows: seq<Category>, c: Category, k: int)
    requires IdsAscending(rows, CategoryId) && c in rows
    ensures CategoryDao.CategoryById(AfterDelete(rows, c), k)
      == if k == c.id && !c.isDefault then None else CategoryDao.CategoryById(rows, k)
    ensures forall d :: d in rows && d.isDefault ==> d in AfterDelete(rows, c)
  {
    FindAfterRemove(rows, c.id, CategoryId, k);
    forall d | d in rows && d.isDefault ensures d in AfterDelete(rows, c) {
      if !c.isDefault && d.id == c.id {
        assert false;
      }
    }
  }

  // ---------------------------------------------------------- view-model

  /** `CategoryManagementUiState` and its handlers. */
  class CategoryManagementViewModel {
    var isLoading: bool
    var categories: seq<Category>
    var selectedType: TransactionType
    var expenseCount: int
    var incomeCount: int
    var showDialog: bool
    var editingCategory: Option<Category>
    var dialogName: string
    var dialogIcon: string
    var dialogColor: string
    var errorMessage: Option<string>

    /** The dialog fields as `onDialogDismiss` leaves them. */
    ghost predicate DialogReset()
      reads this
    {
      && !showDialog && editingCategory == None && dialogName == ""
      && dialogIcon == DefaultIcon && dialogColor == DefaultColor && errorMessage == None
    }

    /**
     * The default state, then `init`'s two collections over the categories
     * `cats`: the expense tab's list (clearing `isLoading`) and the counts.
     */
    constructor(cats: seq<Category>)
      ensures categories == CategoryDao.CategoriesByType(cats, Expense) && !isLoading && selectedType == Expense
      ensures expenseCount == CountOfType(CategoryDao.AllCategories(cats), Expense)
      ensures incomeCount == CountOfType(CategoryDao.AllCategories(cats), Income)
      ensures DialogReset()
    {
      var all := CategoryDao.AllCategories(cats);
      isLoading, categories, selectedType := false, CategoryDao.CategoriesByType(cats, Expense), Expense;
      expenseCount, incomeCount := CountOfType(all, Expense), CountOfType(all, Income);
      showDialog, editingCategory, dialogName := false, None, "";
      dialogIcon, dialogColor, errorMessage := DefaultIcon, DefaultColor, None;
    }

    /** `onTabChanged(type)`: the tab, then its categories, which clear `isLoading`. */
    method OnTabChanged(t: TransactionType, cats: seq<Category>)
      modifies this
      ensures selectedType == t && categories == CategoryDao.CategoriesByType(cats, t) && !isLoading
      ensures expenseCount == old(expenseCount) && incomeCount == old(incomeCount)
      ensures showDialog == old(showDialog) && editingCategory == old(editingCategory)
      ensures dialogName == old(dialogName) && dialogIcon == old(dialogIcon) && dialogColor == old(dialogColor)
      ensures errorMessage == old(errorMessage)
    {
      selectedType, isLoading := t, true;
      categories, isLoading := CategoryDao.CategoriesByType(cats, selectedType), false;
    }

    /** A new emission of `getAllCategories()`: the tab counts. */
    method ObserveCategoryCounts(cats: seq<Category>)
      modifies this
      ensures expenseCount == CountOfType(CategoryDao.AllCategories(cats), Expense)
      ensures incomeCount == CountOfType(CategoryDao.AllCategories(cats), Income)
      ensures expenseCount + incomeCount == |cats|
      ensures isLoading == old(isLoading) && categories == old(categories) && selectedType == old(selectedType)
      ensures showDialog == old(showDialog) && editingCategory == old(editingCategory)
      ensures dialogName == old(dialogName) && dialogIcon == old(dialogIcon) && dialogColor == old(dialogColor)
      ensures errorMessage == old(errorMessage)
    {
      var list := CategoryDao.AllCategories(cats);
      TabCounts(cats);
      ShowCounts(CountOfType(list, Expense), CountOfType(list, Income));
    }

    /** The tab counts set, everything else as it was. */
    method ShowCounts(expense: int, income: int)
      modifies this
      ensures expenseCount == expense && incomeCount == income
      ensures isLoading == old(isLoading) && categories == old(categories) && selectedType == old(selectedType)
      ensures showDialog == old(showDialog) && editingCategory == old(editingCategory)
      ensures dialogName == old(dialogName) && dialogIcon == old(dialogIcon) && dialogColor == old(dialogColor)
      ensures errorMessage == old(errorMessage)
    {
      expenseCount, incomeCount := expense, income;
    }

    /**
     * `prepareForNewCategory()`: no category being edited, an empty name,
     * and the icon and colour at the positions `getRandomIcon` and
     * `getRandomColor` drew.
     */
    method PrepareForNewCategory(iconDraw: int, colorDraw: int)
      requires 0 <= iconDraw < |Icons| && 0 <= colorDraw < |Colors|
      modifies this
      ensures editingCategory == None && dialogName == "" && dialogIcon in Icons && dialogColor in Colors
      ensures dialogIcon == Icons[iconDraw] && dialogColor == Colors[colorDraw]
      // the palettes list nothing twice, so the dialog's icon and colour name the draws that chose them
      ensures forall k :: 0 <= k < |Icons| && Icons[k] == dialogIcon ==> k == iconDraw
      ensures forall k :: 0 <= k < |Colors| && Colors[k] == dialogColor ==> k == colorDraw
      ensures isLoading == old(isLoading) && categories == old(categories) && selectedType == old(selectedType)
      ensures expenseCount == old(expenseCount) && incomeCount == old(incomeCount)
      ensures showDialog == old(showDialog) && errorMessage == old(errorMessage)
    {
      Palettes();
      editingCategory, dialogName, dialogIcon, dialogColor := None, "", Icons[iconDraw], Colors[colorDraw];
    }

    /** `loadCategoryForEdit(id)`: a stored category fills the dialog and selects its type; none changes nothing. */
    method LoadCategoryForEdit(id: int, cats: seq<Category>)
      modifies this
      ensures var found := CategoryDao.CategoryById(cats, id);
        && (found.Some? ==>
             && selectedType == found.value.ctype && editingCategory == found
             && dialogName == found.value.name && dialogIcon == found.value.icon && dialogColor == found.value.color)
        && (found.None? ==>
             && selectedType == old(selectedType) && editingCategory == old(editingCategory)
             && dialogName == old(dialogName) && dialogIcon == old(dialogIcon) && dialogColor == old(dialogColor))
      ensures isLoading == old(isLoading) && categories == old(categories)
      ensures expenseCount == old(expenseCount) && incomeCount == old(incomeCount)
      ensures showDialog == old(showDialog) && errorMessage == old(errorMessage)
    {
      var found := CategoryDao.CategoryById(cats, id);
      if found.Some? {
        var c := found.value;
        selectedType, editingCategory := c.ctype, found;
        dialogName, dialogIcon, dialogColor := c.name, c.icon, c.color;
      }
    }

    /** `onDialogDismiss()`. */
    method OnDialogDismiss()
      modifies this
      ensures DialogReset()
      ensures isLoading == old(isLoading) && categories == old(categories) && selectedType == old(selectedType)
      ensures expenseCount == old(expenseCount) && incomeCount == old(incomeCount)
    {
      showDialog, editingCategory, dialogName := false, None, "";
      dialogIcon, dialogColor, errorMessage := DefaultIcon, DefaultColor, None;
    }

    method OnDialogNameChanged(name: string)
      modifies this
      ensures dialogName == name
      ensures isLoading == old(isLoading) && categories == old(categories) && selectedType == old(selectedType)
      ensures expenseCount == old(expenseCount) && incomeCount == old(incomeCount)
      ensures showDialog == old(showDialog) && editingCategory == old(editingCategory)
      ensures dialogIcon == old(dialogIcon) && dialogColor == old(dialogColor) && errorMessage == old(errorMessage)
    {
      dialogName := name;
    }

    method OnDialogIconChanged(icon: string)
      modifies this
      ensures dialogIcon == icon
      ensures isLoading == old(isLoading) && categories == old(categories) && selectedType == old(selectedType)
      ensures expenseCount == old(expenseCount) && incomeCount == old(incomeCount)
      ensures showDialog == old(showDialog) && editingCategory == old(editingCategory)
      ensures dialogName == old(dialogName) && dialogColor == old(dialogColor) && errorMessage == old(errorMessage)
    {
      dialogIcon := icon;
    }

    method OnDialogColorChanged(color: string)
      modifies this
      ensures dialogColor == color
      ensures isLoading == old(isLoading) && categories == old(categories) && selectedType == old(selectedType)
      ensures expenseCount == old(expenseCount) && incomeCount == old(incomeCount)
      ensures showDialog == old(showDialog) && editingCategory == old(editingCategory)
      ensures dialogName == old(dialogName) && dialogIcon == old(dialogIcon) && errorMessage == old(errorMessage)
    {
      dialogColor := color;
    }

    method OnErrorDismiss()
      modifies this
      ensures errorMessage == None
      ensures isLoading == old(isLoading) && categories == old(categories) && selectedType == old(selectedType)
      ensures expenseCount == old(expenseCount) && incomeCount == old(incomeCount)
      ensures showDialog == old(showDialog) && editingCategory == old(editingCategory)
      ensures dialogName == old(dialogName) && dialogIcon == old(dialogIcon) && dialogColor == old(dialogColor)
    {
      errorMessage := None;
    }

    /**
     * `onSaveCategory(name)`, `store` standing for whether the write throws.
     * A blank name sets its error and writes nothing. Otherwise the edited
     * category is updated, or a new one inserted, and the dialog is reset;
     * a throwing write only sets the error.
     */
    method OnSaveCategory(name: string, table: Table<Category>, store: Outcome)
      requires table.Valid() && table.id == CategoryId && table.withId == CategoryDao.WithCategoryId
      modifies this, table
      ensures table.Valid()
      ensures isLoading == old(isLoading) && categories == old(categories) && selectedType == old(selectedType)
      ensures expenseCount == old(expenseCount) && incomeCount == old(incomeCount)
      ensures IsBlank(name) || store.Throws? ==>
        && table.rows == old(table.rows) && table.nextId == old(table.nextId)
        && errorMessage == Some(if IsBlank(name) then BlankName else SaveError(store.message))
        && showDialog == old(showDialog) && editingCategory == old(editingCategory)
        && dialogName == old(dialogName) && dialogIcon == old(dialogIcon) && dialogColor == old(dialogColor)
      ensures !IsBlank(name) && store.Completes? ==>
        && DialogReset()
        && (old(editingCategory).Some? ==>
             var c := Edited(old(editingCategory).value, name, old(dialogIcon), old(dialogColor));
             table.rows == ReplaceById(old(table.rows), c, CategoryId) && table.nextId == old(table.nextId))
        && (old(editingCategory).None? ==>
             var c := Created(name, old(selectedType), old(dialogIcon), old(dialogColor));
             (table.rows, table.nextId)
               == InsertOne(old(table.rows), old(table.nextId), c, CategoryId, CategoryDao.WithCategoryId))
    {
      if IsBlank(name) {
        errorMessage := Some(BlankName);
        return;
      }
      if store.Throws? {
        errorMessage := Some(SaveError(store.message));
        return;
      }
      if editingCategory.Some? {
        table.Update(Edited(editingCategory.value, name, dialogIcon, dialogColor));
      } else {
        var _ := table.Insert(Created(name, selectedType, dialogIcon, dialogColor));
      }
      OnDialogDismiss();
    }

    /**
     * `onDeleteCategory(category)`: a default category is refused with its
     * error and the table kept; any other is deleted by key. A throwing
     * delete (`store`) sets the error and keeps the table.
     */
    method OnDeleteCategory(c: Category, table: Table<Category>, store: Outcome)
      requires table.Valid() && table.id == CategoryId
      modifies this, table
      ensures table.Valid() && table.nextId == old(table.nextId)
      ensures isLoading == old(isLoading) && categories == old(categories) && selectedType == old(selectedType)
      ensures expenseCount == old(expenseCount) && incomeCount == old(incomeCount)
      ensures showDialog == old(showDialog) && editingCategory == old(editingCategory)
      ensures dialogName == old(dialogName) && dialogIcon == old(dialogIcon) && dialogColor == old(dialogColor)
      ensures c.isDefault ==> table.rows == old(table.rows) && errorMessage == Some(DefaultProtected)
      ensures !c.isDefault && store.Throws? ==> table.rows == old(table.rows) && errorMessage == Some(DeleteError(store.message))
      ensures !c.isDefault && store.Completes? ==>
        table.rows == AfterDelete(old(table.rows), c) && errorMessage == old(errorMessage)
    {
      if c.isDefault {
        errorMessage := Some(DefaultProtected);
        return;
      }
      if store.Throws? {
        errorMessage := Some(DeleteError(store.message));
        return;
      }
      table.Delete(c);
    }
  }
}
