/**
 * `AddTransactionViewModel`: the editor of one transaction, its amount
 * entry, the checks before a save, and the choice between `update` and
 * `insert`.
 */
module AddTransaction {
  import opened Wrappers
  import opened Seqs
  import opened Text
  import opened Dates
  import opened Entities
  import opened Store
  import Dao = TransactionDao
  import CategoryDao

  const MissingAmount: string := "Vui lòng nhập số tiền"
  const MissingCategory: string := "Vui lòng chọn danh mục"
  const UnknownError: string := "Lỗi không xác định"

  /** The text a failed load shows. */
  function LoadError(message: Option<string>): string
  {
    "Không thể load giao dịch: " + TemplateText(message)
  }

  // ------------------------------------------------------- amount entry

  /** `toLongOrNull() ?: 0L` on a non-empty digit string: its value, or 0 beyond `Long.MAX_VALUE`. */
  function ParseAmount(digits: string): (a: int)
    requires AllDigits(digits)
    ensures 0 <= a <= LongMax
    ensures a == if DigitsValue(digits) <= LongMax then DigitsValue(digits) else 0
  {
    var v := DigitsValue(digits);
    if v > LongMax then 0 else v
  }

  /** The amount fields of the state. */
  datatype Entry = Entry(amount: int, amountText: string)

  /**
   * `onAmountChanged(text)`: the new `(amount, amountText)`. Only the digits
   * of the text count; none gives `(0, "")`, any other the parsed amount
   * and its grouped display.
   */
  function AmountEntry(text: string): Entry
  {
    var digits := Filter(text, IsDigit);
    if digits == [] then Entry(0, "")
    else
      var a := ParseAmount(digits);
      Entry(a, FormatGrouped(a))
  }

  /**
   * The entry keeps the digits of the text and nothing else: its amount is
   * their value when it fits a `Long`, 0 otherwise, and the text shown is
   * empty exactly when there are no digits; otherwise it reads back, dots
   * dropped, as the amount.
   */
  lemma AmountEntryMeaning(text: string)
    ensures var amount, amountText := AmountEntry(text).amount, AmountEntry(text).amountText;
      var digits := Filter(text, IsDigit);
      && AllDigits(digits) && (forall c :: c in digits <==> c in text && IsDigit(c))
      && 0 <= amount <= LongMax
      && (amountText == "" <==> digits == [])
      && (digits == [] ==> amount == 0)
      && (digits != [] ==> amount == (if DigitsValue(digits) <= LongMax then DigitsValue(digits) else 0))
      && (digits != [] ==> AllDigits(RemoveDots(amountText)) && DigitsValue(RemoveDots(amountText)) == amount)
  {
    var digits := Filter(text, IsDigit);
    if digits != [] {
      GroupThousandsDenotes(ParseAmount(digits));
    }
  }

  /** Every character of the grouped display is a digit or a separator dot. */
  lemma {:induction false} GroupedChars(n: nat)
    ensures forall i :: 0 <= i < |GroupThousands(n)| ==> IsDigit(GroupThousands(n)[i]) || GroupThousands(n)[i] == '.'
  {
    if n >= 1000 {
      GroupedChars(n / 1000);
    }
  }

  lemma {:induction false} DigitsOfDotted(s: string)
    requires forall i :: 0 <= i < |s| ==> IsDigit(s[i]) || s[i] == '.'
    ensures Filter(s, IsDigit) == RemoveDots(s)
  {
    if s != [] {
      DigitsOfDotted(s[1..]);
    }
  }

  /**
   * The field shows `amountText`, and every edit of it comes back through
   * `onAmountChanged`: entering the shown text again changes nothing.
   */
  lemma AmountEntryStable(text: string)
    ensures AmountEntry(AmountEntry(text).amountText) == AmountEntry(text)
  {
    var amount, shown := AmountEntry(text).amount, AmountEntry(text).amountText;
    AmountEntryMeaning(text);
    if shown != "" {
      GroupedChars(amount);
      DigitsOfDotted(shown);
      GroupThousandsDenotes(amount);
    }
  }

  // -------------------------------------------------------------- saving

  /** The checks of `saveTransaction`, in order: an amount, then a category. */
  function SaveCheck(amount: int, selectedCategory: Option<Category>): (error: Option<string>)
    ensures error == Some(MissingAmount) <==> amount <= 0
    ensures error == Some(MissingCategory) <==> amount > 0 && selectedCategory.None?
    ensures error.None? <==> amount > 0 && selectedCategory.Some?
  {
    if amount <= 0 then Some(MissingAmount)
    else if selectedCategory.None? then Some(MissingCategory)
    else None
  }

  /** `transactionId != null && transactionId > 0`: the save is an `update`. */
  predicate IsUpdate(transactionId: Option<int>)
  {
    transactionId.Some? && transactionId.value > 0
  }

  /** The table (rows, next key) after the write a save performs with the entity `t`. */
  function AfterSave(rows: seq<Transaction>, nextId: int, t: Transaction, update: bool): (seq<Transaction>, int)
  {
    if update then (ReplaceById(rows, t, TransactionId), nextId)
    else InsertOne(rows, nextId, t, TransactionId, Dao.WithTransactionId)
  }

  /** Saving an edit rewrites the row under its key, if it is still stored, and no other row. */
  lemma SaveEditRewrites(rows: seq<Transaction>, nextId: int, t: Transaction, k: int)
    requires IdsAscending(rows, TransactionId)
    ensures Dao.TransactionById(AfterSave(rows, nextId, t, true).0, k)
      == if k == t.id && Dao.TransactionById(rows, k).Some? then Some(t) else Dao.TransactionById(rows, k)
  {
    FindAfterReplace(rows, t, TransactionId, k);
  }

  /** Saving a new transaction (key 0) appends it under the next key, which no stored row had. */
  lemma SaveNewAppends(rows: seq<Transaction>, nextId: int, t: Transaction)
    requires forall i :: 0 <= i < |rows| ==> rows[i].id < nextId
    requires t.id == 0
    ensures Dao.TransactionById(rows, nextId).None?
    ensures AfterSave(rows, nextId, t, false) == (rows + [t.(id := nextId)], nextId + 1)
  {
    GeneratedKeyIsFresh(rows, nextId, t, TransactionId, Dao.WithTransactionId);
  }

  /**
   * A save that is not an update with a key other than 0 (a negative one)
   * is an insert under that key, replacing a row that has it.
   */
  lemma SaveOwnKey(rows: seq<Transaction>, nextId: int, t: Transaction, k: int)
    requires IdsAscending(rows, TransactionId) && t.id != 0
    ensures Dao.TransactionById(AfterSave(rows, nextId, t, false).0, k)
      == if k == t.id then Some(t) else Dao.TransactionById(rows, k)
  {
    FindAfterUpsert(rows, t, TransactionId, k);
  }

  // ---------------------------------------------------------- view-model

  /** `AddTransactionUiState` and its handlers. */
  class AddTransactionViewModel {
    var transactionId: Option<int>
    var ttype: TransactionType
    var amount: int
    var amountText: string
    var selectedCategory: Option<Category>
    var categories: seq<Category>
    var note: string
    var date: LocalDate
    var isLoading: bool
    var error: Option<string>

    /**
     * The default state, `today` standing for `LocalDate.now()`, then
     * `init`'s `loadCategories(EXPENSE)` against the categories `cats`.
     */
    constructor(today: LocalDate, cats: seq<Category>)
      ensures transactionId == None && ttype == Expense && amount == 0 && amountText == ""
      ensures selectedCategory == None && categories == CategoryDao.CategoriesByType(cats, Expense)
      ensures note == "" && date == today && !isLoading && error == None
    {
      transactionId, ttype, amount, amountText := None, Expense, 0, "";
      selectedCategory, categories := None, CategoryDao.CategoriesByType(cats, Expense);
      note, date, isLoading, error := "", today, false, None;
    }

    /** `onTransactionTypeChanged(type)`: the type, no category selected, that type's categories. */
    method OnTransactionTypeChanged(t: TransactionType, cats: seq<Category>)
      modifies this
      ensures ttype == t && selectedCategory == None && categories == CategoryDao.CategoriesByType(cats, t)
      ensures transactionId == old(transactionId) && amount == old(amount) && amountText == old(amountText)
      ensures note == old(note) && date == old(date) && isLoading == old(isLoading) && error == old(error)
    {
      ttype, selectedCategory, categories := t, None, CategoryDao.CategoriesByType(cats, t);
    }

    /** `onCategorySelected(category)`. */
    method OnCategorySelected(c: Category)
      modifies this
      ensures selectedCategory == Some(c)
      ensures transactionId == old(transactionId) && ttype == old(ttype) && amount == old(amount)
      ensures amountText == old(amountText) && categories == old(categories) && note == old(note)
      ensures date == old(date) && isLoading == old(isLoading) && error == old(error)
    {
      selectedCategory := Some(c);
    }

    /** `onAmountChanged(text)`: the amount and its display, as `AmountEntry` gives them. */
    method OnAmountChanged(text: string)
      modifies this
      ensures Entry(amount, amountText) == AmountEntry(text)
      ensures transactionId == old(transactionId) && ttype == old(ttype) && selectedCategory == old(selectedCategory)
      ensures categories == old(categories) && note == old(note)
      ensures date == old(date) && isLoading == old(isLoading) && error == old(error)
    {
      var digitsOnly := Filter(text, IsDigit);
      if digitsOnly == [] {
        amount, amountText := 0, "";
        return;
      }
      var amountLong := ParseAmount(digitsOnly);
      amount, amountText := amountLong, FormatGrouped(amountLong);
    }

    /** `onNoteChanged(note)`. */
    method OnNoteChanged(n: string)
      modifies this
      ensures note == n
      ensures transactionId == old(transactionId) && ttype == old(ttype) && amount == old(amount)
      ensures amountText == old(amountText) && selectedCategory == old(selectedCategory)
      ensures categories == old(categories) && date == old(date) && isLoading == old(isLoading)
      ensures error == old(error)
    {
      note := n;
    }

    /** `onDateChanged(date)`. */
    method OnDateChanged(d: LocalDate)
      modifies this
      ensures date == d
      ensures transactionId == old(transactionId) && ttype == old(ttype) && amount == old(amount)
      ensures amountText == old(amountText) && selectedCategory == old(selectedCategory)
      ensures categories == old(categories) && note == old(note) && isLoading == old(isLoading)
      ensures error == old(error)
    {
      date := d;
    }

    /**
     * `loadTransaction(id)` against the stored rows and categories. A found
     * row fills the editor, its category looked up by key and that type's
     * categories listed. A missing one changes nothing but leaves
     * `isLoading` set. A throwing read (`store`) clears the flag and sets the
     * error. The error of an earlier step is never cleared here.
     */
    method LoadTransaction(id: int, rows: seq<Transaction>, cats: seq<Category>, store: Outcome)
      modifies this
      ensures store.Throws? ==>
        && isLoading == false && error == Some(LoadError(store.message))
        && transactionId == old(transactionId) && ttype == old(ttype) && amount == old(amount)
        && amountText == old(amountText) && selectedCategory == old(selectedCategory)
        && categories == old(categories) && note == old(note) && date == old(date)
      ensures store.Completes? ==>
        var found := Dao.TransactionWithCategoryById(rows, cats, id);
        && error == old(error)
        && (found.Some? ==>
             var t := found.value.transaction;
             && transactionId == Some(id) && ttype == t.ttype && amount == t.amount
             && amountText == FormatGrouped(t.amount)
             && selectedCategory == CategoryDao.CategoryById(cats, t.categoryId)
             && categories == CategoryDao.CategoriesByType(cats, t.ttype)
             && note == t.note && date == t.date && !isLoading)
        && (found.None? ==>
             && isLoading
             && transactionId == old(transactionId) && ttype == old(ttype) && amount == old(amount)
             && amountText == old(amountText) && selectedCategory == old(selectedCategory)
             && categories == old(categories) && note == old(note) && date == old(date))
    {
      isLoading := true;
      if store.Throws? {
        isLoading, error := false, Some(LoadError(store.message));
        return;
      }
      var found := Dao.TransactionWithCategoryById(rows, cats, id);
      if found.Some? {
        var t := found.value.transaction;
        var listed := CategoryDao.CategoriesByType(cats, t.ttype);
        var category := CategoryDao.CategoryById(cats, t.categoryId);
        Fill(id, t, category, listed);
      }
    }

    /** The `copy(...)` of a successful load: `t`'s fields, its category and the listed categories. */
    method Fill(id: int, t: Transaction, category: Option<Category>, listed: seq<Category>)
      modifies this
      ensures transactionId == Some(id) && ttype == t.ttype && amount == t.amount
      ensures amountText == FormatGrouped(t.amount) && selectedCategory == category && categories == listed
      ensures note == t.note && date == t.date && !isLoading && error == old(error)
    {
      categories := listed;
      transactionId, ttype, amount, amountText := Some(id), t.ttype, t.amount, FormatGrouped(t.amount);
      selectedCategory, note, date, isLoading := category, t.note, t.date, false;
    }

    /**
     * `saveTransaction(onSuccess)`, `now` standing for the clock that
     * stamps `createdAt` and `store` for whether the write throws; the
     * result says whether `onSuccess` runs. A failed check sets its error
     * and writes nothing; otherwise the entity built from the state is
     * written with `update` or `insert`, or the write throws and its
     * message (or "Lỗi không xác định") becomes the error.
     */
    method SaveTransaction(table: Table<Transaction>, now: int, store: Outcome) returns (succeeded: bool)
      requires table.Valid() && table.id == TransactionId && table.withId == Dao.WithTransactionId
      modifies this, table
      ensures table.Valid()
      ensures transactionId == old(transactionId) && ttype == old(ttype) && amount == old(amount)
      ensures amountText == old(amountText) && selectedCategory == old(selectedCategory)
      ensures categories == old(categories) && note == old(note) && date == old(date)
      ensures SaveCheck(old(amount), old(selectedCategory)).Some? ==>
        && !succeeded && error == SaveCheck(old(amount), old(selectedCategory))
        && table.rows == old(table.rows) && table.nextId == old(table.nextId) && isLoading == old(isLoading)
      ensures SaveCheck(old(amount), old(selectedCategory)).None? && store.Throws? ==>
        && !succeeded && error == Some(store.message.GetOr(UnknownError)) && !isLoading
        && table.rows == old(table.rows) && table.nextId == old(table.nextId)
      ensures SaveCheck(old(amount), old(selectedCategory)).None? && store.Completes? ==>
        var t := Transaction(old(transactionId).GetOr(0), old(amount), old(ttype), old(selectedCategory).value.id,
                             old(note), old(date), now);
        && succeeded && error == None && !isLoading
        && (table.rows, table.nextId) == AfterSave(old(table.rows), old(table.nextId), t, IsUpdate(old(transactionId)))
    {
      var check := SaveCheck(amount, selectedCategory);
      if check.Some? {
        error := check;
        return false;
      }
      isLoading, error := true, None;
      var t := Transaction(transactionId.GetOr(0), amount, ttype, selectedCategory.value.id, note, date, now);
      if store.Throws? {
        isLoading, error := false, Some(store.message.GetOr(UnknownError));
        return false;
      }
      if IsUpdate(transactionId) {
        table.Update(t);
      } else {
        var _ := table.Insert(t);
      }
      isLoading := false;
      succeeded := true;
    }
  }
}
