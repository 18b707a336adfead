/**
 * `TransactionDetailItemViewModel`: one transaction shown with its
 * category, and its deletion.
 */
module TransactionDetailItem {
  import opened Wrappers
  import opened Dates
  import opened Entities
  import opened Store
  import opened TransactionDao

  /** `TransactionDetailItemUi`. */
  datatype ItemUi = ItemUi(
    id: int,
    categoryName: string,
    note: string,
    amount: int,
    isIncome: bool,
    date: LocalDate,
    categoryColor: Option<string>,
    categoryIcon: Option<string>)

  const NoCategory: string := "Không có danh mục"
  const NotFound: string := "Không tìm thấy giao dịch"

  /** The text a failed load shows: the prefix, then the exception's message. */
  function LoadError(message: Option<string>): string
  {
    "Có lỗi xảy ra: " + TemplateText(message)
  }

  /** The text a failed delete shows. */
  function DeleteError(message: Option<string>): string
  {
    "Không thể xóa giao dịch: " + TemplateText(message)
  }

  /** The found row as the screen shows it: a missing category name becomes "Không có danh mục". */
  function UiOf(row: TransactionWithCategory): (u: ItemUi)
    ensures var t := row.transaction;
      && u.id == t.id && u.note == t.note && u.amount == t.amount && u.date == t.date
      && (u.isIncome <==> t.ttype == Income)
      && u.categoryName == (if row.categoryName.Some? then row.categoryName.value else NoCategory)
      && u.categoryColor == row.categoryColor && u.categoryIcon == row.categoryIcon
  {
    var t := row.transaction;
    ItemUi(t.id, row.categoryName.GetOr(NoCategory), t.note, t.amount, t.ttype == Income, t.date,
           row.categoryColor, row.categoryIcon)
  }

  /** A stored transaction is shown with its own fields and its category's name, or the placeholder. */
  lemma ShownTransaction(rows: seq<Transaction>, cats: seq<Category>, i: int)
    requires IdsAscending(rows, TransactionId) && 0 <= i < |rows|
    ensures var found := TransactionWithCategoryById(rows, cats, rows[i].id);
      var c := FindById(cats, CategoryId, rows[i].categoryId);
      && found.Some?
      && UiOf(found.value).id == rows[i].id && UiOf(found.value).amount == rows[i].amount
      && UiOf(found.value).categoryName == (if c.Some? then c.value.name else NoCategory)
  {
    FindStored(rows, TransactionId, i);
  }

  /** After a delete of `id` the key is gone and every other key keeps its row. */
  lemma DeleteRemovesOnlyThat(rows: seq<Transaction>, id: int, k: int)
    requires IdsAscending(rows, TransactionId)
    ensures TransactionById(RemoveById(rows, id, TransactionId), k) == if k == id then None else TransactionById(rows, k)
  {
    FindAfterRemove(rows, id, TransactionId, k);
  }

  // ---------------------------------------------------------- view-model

  /** `TransactionDetailItemUiState` and its operations. */
  class TransactionDetailItemViewModel {
    var transaction: Option<ItemUi>
    var isLoading: bool
    var error: Option<string>

    constructor()
      ensures transaction == None && !isLoading && error == None
    {
      transaction, isLoading, error := None, false, None;
    }

    /**
     * `loadTransaction(id)`: the error is cleared first. A found row replaces
     * the transaction shown; a missing one sets "Không tìm thấy giao dịch"
     * and keeps the transaction already shown; a throwing read (`store`)
     * sets the error from its message and keeps it too.
     */
    method LoadTransaction(transactionId: int, rows: seq<Transaction>, cats: seq<Category>, store: Outcome)
      modifies this
      ensures !isLoading
      ensures store.Throws? ==> transaction == old(transaction) && error == Some(LoadError(store.message))
      ensures store.Completes? ==>
        var found := TransactionWithCategoryById(rows, cats, transactionId);
        && (found.Some? ==> transaction == Some(UiOf(found.value)) && error == None)
        && (found.None? ==> transaction == old(transaction) && error == Some(NotFound))
    {
      isLoading, error := true, None;
      if store.Throws? {
        isLoading, error := false, Some(LoadError(store.message));
        return;
      }
      var found := TransactionWithCategoryById(rows, cats, transactionId);
      if found.Some? {
        transaction, isLoading := Some(UiOf(found.value)), false;
      } else {
        isLoading, error := false, Some(NotFound);
      }
    }

    /**
     * `deleteTransaction(id)`: the row with that key is removed when it
     * exists, and nothing happens when it does not. When the store throws
     * (`store`), the table is unchanged and only the error is set.
     */
    method DeleteTransaction(transactionId: int, table: Table<Transaction>, store: Outcome)
      requires table.Valid() && table.id == TransactionId
      modifies this, table
      ensures table.Valid() && table.nextId == old(table.nextId)
      ensures transaction == old(transaction) && isLoading == old(isLoading)
      ensures store.Throws? ==> table.rows == old(table.rows) && error == Some(DeleteError(store.message))
      ensures store.Completes? ==>
        table.rows == RemoveById(old(table.rows), transactionId, TransactionId) && error == old(error)
    {
      if store.Throws? {
        error := Some(DeleteError(store.message));
        return;
      }
      var found := TransactionById(table.rows, transactionId);
      if found.Some? {
        table.Delete(found.value);
      } else {
        RemoveAbsent(table.rows, transactionId, TransactionId);
      }
    }
  }
}
