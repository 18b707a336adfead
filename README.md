# Expense manager core, modelled in Dafny

This project models the data and view-model core of an Android expense
manager written in Kotlin. The app stores income and expense transactions and
their categories in a Room/SQLite database. It shows monthly and yearly
breakdowns, a per-day table, a searchable history and a month picker, and
sends a daily reminder.

The model has these layers, one module per source file or shared concept:

- **Values** (`Wrappers`, `Seqs`, `Sorting`, `Grouping`, `Text`, `Dates`, `Entities`):
  - the two entities and `LocalDate` as datatypes;
  - the Kotlin collection operations the app relies on (`filter`, `map`, `sumOf`, stable `sortedBy`, `groupBy`, `toSortedMap`, `associateBy`);
  - the text operations it uses (`trim`, `lowercase`, `isBlank`, decimal printing, vi-VN thousands grouping);
  - the calendar arithmetic of `java.time` that the code calls: month lengths, `plusMonths`, `minusDays(1)`, `withDayOfMonth`, `atEndOfMonth`.
- **Storage** (`Store`, `Converters`, `TransactionDao`, `CategoryDao`, `AppDatabase`, `TransactionRepository`):
  - each table is a `class` whose `rows` sequence its methods reassign (insert with REPLACE and AUTOINCREMENT, update by key, delete by key, conditional delete, delete all);
  - each query is a function of the rows with the SQL semantics spelled out: ISO date texts compared as strings, `ORDER BY`, `GROUP BY`, `SUM` being NULL over no rows, `COALESCE`;
  - the type converters, with their round trips;
  - the seeding of the 14 default categories on first creation;
  - the month-level repository functions, including the day-by-day chart series.
- **Screens** (`Report`, `CategoryReportDetail`, `TransactionDetail`, `TransactionDetailItem`, `Search`, `DailyStats`, `AddTransaction`, `CategoryManagement`, `DailyReminder`, `MonthPicker`, with `Views` shared):
  - each view-model is a `class` whose fields are its UI state;
  - each handler is a method that states the whole new state;
  - what a load computes is a function of the stored rows, and lemmas state what the screen promises: totals that add up, groups that partition the rows, orders, counts, error texts.

A store read or write that may throw is a parameter `store: Outcome`, either `Completes` or `Throws(message)`. The clock (`LocalDate.now()`, `System.currentTimeMillis()`) and random choices are parameters too.

Three functions that the code calls are not declared where it calls them:

- `TransactionDao.getTransactionsByMonthOnce(start, end)` is not in `TransactionDao.kt`. It is modelled as the same query as `getTransactionsByMonth`.
- `TransactionDao.getTransactionWithCategoryById(id)` is not in `TransactionDao.kt`. It is modelled as the row with that key left-joined with its category.
- `CategoryRepository.getAllCategoriesOnce()` is not in `CategoryRepository.kt`. It is called at `ReportViewModel.kt:74`, `CategoryReportDetailViewModel.kt:48` and `TransactionDetailViewMode.kt:43`. It is modelled as `CategoryDao.getAllCategoriesOnce()` (`CategoryDao.AllCategories`), the query `CategoryDao.kt:47-48` declares.

## Model

There is one row for each member that stands for a source function or expression or states a property of one. Generic helpers on sequences, groups and sorting (`Seqs`, `Grouping`, `Sorting`) and the small steps inside proofs have none. Where a function has no `ensures` of its own, its row names the lemmas that state what it computes.

| member | source | states |
|---|---|---|
| `Entities.NewTransaction` | app/src/main/java/com/example/expensemanager/data/entity/TransactionEntity.kt:11-21 | a new row has id 0 (key not yet generated), the given amount, type, category, date and creation time, and an empty note unless one is given |
| `Entities.NewCategory` | app/src/main/java/com/example/expensemanager/data/entity/CategoryEntity.kt:10-19 | a new category has id 0, icon "💰", colour "#4CAF50" and is not a default one unless told otherwise |
| `Entities.CountOfType` | app/src/main/java/com/example/expensemanager/feature/categorymanagement/CategoryManagementViewModel.kt:53-54 | a count of one type never exceeds the number of categories |
| `Entities.CountsAddUp` | app/src/main/java/com/example/expensemanager/feature/categorymanagement/CategoryManagementViewModel.kt:53-54 | the expense count plus the income count is the number of categories |
| `Entities.Lookup` | app/src/main/java/com/example/expensemanager/feature/report/ReportViewModel.kt:91 | `categoryMap[id]` is a category exactly when the id is a key of the map, and then it is the mapped category |
| `Entities.ParseHexLong` | app/src/main/java/com/example/expensemanager/feature/report/ReportViewModel.kt:95-99 | `Long.parseLong(s, 16)` succeeds exactly on an optional '+' or '-' followed by at least one hex digit, or on hex digits alone, with the signed value |
| `Entities.ParseColor` | app/src/main/java/com/example/expensemanager/feature/report/ReportViewModel.kt:95-99 | a text starting with '#' parses exactly when it has 7 or 9 characters and `Long.parseLong` reads the rest in base 16, sign included; 6 digits get the opaque alpha, both forms are cut to 32 bits; the unsigned forms give their hex value; an empty text fails; any other text is the named colour of its lower-case form |
| `Entities.NamedColor` | app/src/main/java/com/example/expensemanager/feature/report/ReportViewModel.kt:95-99 | the colour names `parseColor` knows give opaque 32-bit ARGB values; every other name fails |
| `Entities.NamedColorAnyCase` | app/src/main/java/com/example/expensemanager/feature/report/ReportViewModel.kt:95-99 | a text not starting with '#' gives the same colour as its lower-case form, so a name is read in any case, and a named colour is opaque |
| `Entities.SignedHexColor` | app/src/main/java/com/example/expensemanager/feature/report/ReportViewModel.kt:95-99 | "#-" and five or seven hex digits give the negated value cut to 24 bits with an opaque alpha, or to 32 bits: the two's complement `Long.parseLong` and the `(int)` cast produce |
| `Entities.PlusHexColor` | app/src/main/java/com/example/expensemanager/feature/report/ReportViewModel.kt:95-99 | "#+" and five or seven hex digits give the digits' value, with an opaque alpha for five |
| `Entities.ResolveColor` | app/src/main/java/com/example/expensemanager/feature/report/ReportViewModel.kt:95-99 | the category's colour when it parses; the fallback grey 0xFF607D8B when there is no category or its colour does not parse |
| `Converters.YearText` | app/src/main/java/com/example/expensemanager/data/Converters.kt:17-19 | a year 0..9999 is printed as exactly four digits with leading zeros |
| `Converters.YearTextShape` | app/src/main/java/com/example/expensemanager/data/Converters.kt:17-19 | the printed year is a sign and 4 to 9 digits denoting its absolute value: no sign for 0..9999, '+' beyond, '-' below zero |
| `Converters.FormatDate` | app/src/main/java/com/example/expensemanager/data/Converters.kt:17-19 | for a four-digit year the stored text is YYYY-MM-DD: ten characters, '-' at positions 4 and 7, digits elsewhere |
| `Converters.ParseIso` | app/src/main/java/com/example/expensemanager/data/Converters.kt:25-27 | `LocalDate.parse` succeeds exactly when the text has the ISO_LOCAL_DATE layout and its fields form a valid date, and then yields those fields |
| `Converters.FromLocalDate` | app/src/main/java/com/example/expensemanager/data/Converters.kt:17-19 | null is written as null and only null is |
| `Converters.ToLocalDate` | app/src/main/java/com/example/expensemanager/data/Converters.kt:25-27 | null reads as null and only null does; a failure is `DateTimeParseException`; a date read is valid |
| `Converters.TypeValueOf` | app/src/main/java/com/example/expensemanager/data/Converters.kt:41-43 | `valueOf` succeeds exactly on "INCOME" and "EXPENSE", with the constant of that name; otherwise `IllegalArgumentException` |
| `Converters.FromTransactionType` | app/src/main/java/com/example/expensemanager/data/Converters.kt:33-35 | null iff null; a type is written as "INCOME" or "EXPENSE" |
| `Converters.ToTransactionType` | app/src/main/java/com/example/expensemanager/data/Converters.kt:41-43 | null reads as null; the conversion fails exactly on a text other than the two names |
| `Converters.TypeRoundTrip` | app/src/main/java/com/example/expensemanager/data/Converters.kt:32-43 | reading back a written type gives the type, and the two types are written differently |
| `Converters.DateRoundTrip` | app/src/main/java/com/example/expensemanager/data/Converters.kt:16-27 | `toLocalDate(fromLocalDate(d)) == d` for every date `LocalDate` can hold |
| `Converters.ParseFormatted` | app/src/main/java/com/example/expensemanager/data/Converters.kt:17-26 | parsing the printed text of a valid date gives the date back |
| `Converters.FormatDateInjective` | app/src/main/java/com/example/expensemanager/data/Converters.kt:17-19 | distinct dates are stored as distinct texts |
| `Converters.EncodingOrder` | app/src/main/java/com/example/expensemanager/data/Converters.kt:17-19 | for four-digit years the stored texts compare character by character exactly as the dates compare chronologically |
| `Dates.LengthOfMonth` | app/src/main/java/com/example/expensemanager/data/repository/TransactionRepository.kt:85 | `lengthOfMonth` is 31 for months 1, 3, 5, 7, 8, 10, 12, 30 for 4, 6, 9, 11, and for February 29 exactly in Gregorian leap years |
| `Dates.BeforeIsStrictTotalOrder` | app/src/main/java/com/example/expensemanager/feature/search/SearchViewModel.kt:131 | chronological order is irreflexive, transitive, asymmetric and total on distinct dates |
| `Dates.AtDay` | app/src/main/java/com/example/expensemanager/data/repository/TransactionRepository.kt:29 | `atDay(day)` is the valid date of that month with that day |
| `Dates.AtEndOfMonth` | app/src/main/java/com/example/expensemanager/data/repository/TransactionRepository.kt:30 | `atEndOfMonth()` is a valid date of the month no date of the month comes after |
| `Dates.WithDayOfMonth` | app/src/main/java/com/example/expensemanager/data/repository/TransactionRepository.kt:38-39 | `withDayOfMonth(day)` keeps the year and month and sets the day |
| `Dates.MonthIsInterval` | app/src/main/java/com/example/expensemanager/data/repository/TransactionRepository.kt:28-31 | the valid dates of a month are exactly those from its first day to its last |
| `Dates.PlusMonths` | app/src/main/java/com/example/expensemanager/widget/MonthPicker.kt:99 | `plusMonths(k)` moves the month count by k and clamps the day to the new month's length; it throws exactly when the year leaves the supported range |
| `Dates.MonthIndexInjective` | app/src/main/java/com/example/expensemanager/widget/MonthPicker.kt:99 | two months have the same month count exactly when they are the same month |
| `Dates.MonthIndexOrder` | app/src/main/java/com/example/expensemanager/widget/MonthPicker.kt:98-99 | a smaller month count means an earlier date |
| `Dates.PrevDay` | app/src/main/java/com/example/expensemanager/worker/DailyReminderWorker.kt:35 | `minusDays(1)` throws exactly on the first representable day; otherwise it is a valid earlier date |
| `Dates.PrevDayIsImmediate` | app/src/main/java/com/example/expensemanager/worker/DailyReminderWorker.kt:35 | no valid date lies strictly between the previous day and the day |
| `Store.FindById` | app/src/main/java/com/example/expensemanager/data/dao/TransactionDao.kt:52-53 | a found row is stored and has the key; nothing is found exactly when no row has the key |
| `Store.Upsert` | app/src/main/java/com/example/expensemanager/data/dao/TransactionDao.kt:18-19 | after `INSERT OR REPLACE` the new row is stored and every other row was stored before |
| `Store.ReplaceById` | app/src/main/java/com/example/expensemanager/data/dao/TransactionDao.kt:24-25 | `@Update` rewrites exactly the rows with the new row's key, position by position |
| `Store.RemoveById` | app/src/main/java/com/example/expensemanager/data/dao/TransactionDao.kt:30-31 | after `@Delete` the rows are exactly the stored ones with another key |
| `Store.NextIdAfter` | app/src/main/java/com/example/expensemanager/data/dao/TransactionDao.kt:18-19 | AUTOINCREMENT's next key is above every key used so far |
| `Store.FindStored` | app/src/main/java/com/example/expensemanager/data/dao/TransactionDao.kt:52-53 | in a table with distinct keys each row is found under its own key |
| `Store.UpsertAscending` | app/src/main/java/com/example/expensemanager/data/dao/TransactionDao.kt:18-19 | REPLACE keeps the keys distinct and in order |
| `Store.FindAfterUpsert` | app/src/main/java/com/example/expensemanager/data/dao/TransactionDao.kt:18-19 | after REPLACE the key holds the new row and every other key holds what it held |
| `Store.UpsertFresh` | app/src/main/java/com/example/expensemanager/data/dao/TransactionDao.kt:18-19 | a row with a key above all stored ones is appended |
| `Store.ReplaceAscending` | app/src/main/java/com/example/expensemanager/data/dao/TransactionDao.kt:24-25 | `@Update` keeps the keys distinct and in order |
| `Store.FindAfterReplace` | app/src/main/java/com/example/expensemanager/data/dao/TransactionDao.kt:24-25 | after `@Update` the key holds the new row if it was stored, and every other key is unchanged |
| `Store.ReplaceAbsent` | app/src/main/java/com/example/expensemanager/data/dao/TransactionDao.kt:24-25 | an update of a key that is not stored changes nothing |
| `Store.RemoveAbsent` | app/src/main/java/com/example/expensemanager/data/dao/TransactionDao.kt:30-31 | a delete of a key that is not stored changes nothing |
| `Store.RemoveSubsequence` | app/src/main/java/com/example/expensemanager/data/dao/TransactionDao.kt:30-31 | a delete keeps the keys distinct and in order |
| `Store.FindAfterRemove` | app/src/main/java/com/example/expensemanager/data/dao/TransactionDao.kt:30-31 | after a delete the key finds nothing and every other key is unchanged |
| `Store.FilterAscending` | app/src/main/java/com/example/expensemanager/data/dao/CategoryDao.kt:71-72 | a conditional delete keeps the keys distinct and in order |
| `Store.FindAfterFilter` | app/src/main/java/com/example/expensemanager/data/dao/CategoryDao.kt:71-72 | after `DELETE … WHERE NOT keep` a key is found, unchanged, exactly when its row is kept |
| `Store.GeneratedKeyIsFresh` | app/src/main/java/com/example/expensemanager/data/dao/TransactionDao.kt:18-19 | an insert with key 0 gets a key no row has, and the row goes at the end |
| `Store.InsertAllFresh` | app/src/main/java/com/example/expensemanager/data/dao/CategoryDao.kt:23-24 | `insertAll` of new rows appends them in list order under consecutive fresh keys |
| `Store.Numbered` | app/src/main/java/com/example/expensemanager/data/dao/CategoryDao.kt:23-24 | the i-th new row gets the key `first + i` |
| `Store.Table.constructor` | app/src/main/java/com/example/expensemanager/data/AppDatabase.kt:39-51 | a new table is empty and its next key is 1 |
| `Store.Table.Insert` | app/src/main/java/com/example/expensemanager/data/dao/TransactionDao.kt:18-19 | the table becomes the REPLACE insert of the row, and the key returned is the row's key |
| `Store.Table.InsertAll` | app/src/main/java/com/example/expensemanager/data/dao/CategoryDao.kt:23-24 | the table becomes the inserts of the list, one after the other |
| `Store.Table.Update` | app/src/main/java/com/example/expensemanager/data/dao/TransactionDao.kt:24-25 | the table's rows become `ReplaceById` of the old rows; the key counter is unchanged |
| `Store.Table.Delete` | app/src/main/java/com/example/expensemanager/data/dao/TransactionDao.kt:30-31 | the table's rows become `RemoveById` of the old rows under the row's key |
| `Store.Table.DeleteUnless` | app/src/main/java/com/example/expensemanager/data/dao/CategoryDao.kt:71-72 | the rows become those of the old rows that are kept, in order |
| `Store.Table.DeleteAll` | app/src/main/java/com/example/expensemanager/data/dao/TransactionDao.kt:90-91 | the table is empty and the key counter keeps its value |
| `TransactionDao.TransactionKey` | app/src/main/java/com/example/expensemanager/data/entity/TransactionEntity.kt:12-13 | the id column is the key: setting it changes the key and nothing else the key sees |
| `TransactionDao.NewerFirstIsStrictOrder` | app/src/main/java/com/example/expensemanager/data/dao/TransactionDao.kt:36 | `ORDER BY date DESC, createdAt DESC` is a strict order |
| `TransactionDao.StoredLessIsStrictTotalOrder` | app/src/main/java/com/example/expensemanager/data/dao/TransactionDao.kt:83 | `ORDER BY date ASC` on the stored texts is a strict total order |
| `TransactionDao.InRange` | app/src/main/java/com/example/expensemanager/data/dao/TransactionDao.kt:44 | `date >= :startDate AND date <= :endDate` on the stored texts; `InRangeIsChronological` proves it is the calendar range, both ends included, for four-digit years |
| `TransactionDao.AllTransactions` | app/src/main/java/com/example/expensemanager/data/dao/TransactionDao.kt:36-37 | every stored row, each as often as stored, newest date first and then newest `createdAt` first |
| `TransactionDao.TransactionsByMonth` | app/src/main/java/com/example/expensemanager/data/dao/TransactionDao.kt:42-47 | exactly the rows with start ≤ date ≤ end (both ends included), each as often as stored, newest first |
| `TransactionDao.InRangeHasFourDigitYear` | app/src/main/java/com/example/expensemanager/data/dao/TransactionDao.kt:44 | a row in a range whose start has a four-digit year has a four-digit year itself |
| `TransactionDao.InRangeIsChronological` | app/src/main/java/com/example/expensemanager/data/dao/TransactionDao.kt:44 | for four-digit years the text range test is the calendar range test, both ends included |
| `TransactionDao.TransactionWithCategoryById` | app/src/main/java/com/example/expensemanager/feature/addtransaction/AddTransactionViewModel.kt:107 | a result exactly when the key is stored; it carries that row and its category's name, colour and icon, all null when the category is missing |
| `TransactionDao.TransactionById` | app/src/main/java/com/example/expensemanager/data/dao/TransactionDao.kt:52-53 | `getTransactionById`; `TransactionByIdFinds` proves it finds a row exactly when one has the key, and then that row |
| `TransactionDao.TransactionByIdFinds` | app/src/main/java/com/example/expensemanager/data/dao/TransactionDao.kt:52-53 | `getTransactionById` finds a row exactly when one has the key, and then that row |
| `TransactionDao.SqlSum` | app/src/main/java/com/example/expensemanager/data/dao/TransactionDao.kt:59 | SQL `SUM` is NULL over no rows and the sum otherwise |
| `TransactionDao.Coalesce` | app/src/main/java/com/example/expensemanager/data/dao/TransactionDao.kt:59 | `COALESCE(value, 0)`: the value when there is one, else the fallback |
| `TransactionDao.TotalIncomeByMonth` | app/src/main/java/com/example/expensemanager/data/dao/TransactionDao.kt:58-62 | `getTotalIncomeByMonth`; `TotalIncomeIsSum` proves it is the sum of the INCOME amounts in range and 0 when there are none |
| `TransactionDao.TotalExpenseByMonth` | app/src/main/java/com/example/expensemanager/data/dao/TransactionDao.kt:67-71 | `getTotalExpenseByMonth`; `TotalExpenseIsSum` proves it is the sum of the EXPENSE amounts in range and 0 when there are none |
| `TransactionDao.TotalIncomeIsSum` | app/src/main/java/com/example/expensemanager/data/dao/TransactionDao.kt:58-62 | the income total is the sum of the INCOME amounts in range, and 0 when there are none |
| `TransactionDao.TotalExpenseIsSum` | app/src/main/java/com/example/expensemanager/data/dao/TransactionDao.kt:67-71 | the expense total is the sum of the EXPENSE amounts in range, and 0 when there are none |
| `TransactionDao.DailyRow` | app/src/main/java/com/example/expensemanager/data/dao/TransactionDao.kt:77-82 | a `GROUP BY date` row carries its group's date |
| `TransactionDao.DailyGroups` | app/src/main/java/com/example/expensemanager/data/dao/TransactionDao.kt:80-83 | the `GROUP BY date` groups of the rows in range, dates ascending; `DailyDatesExact` and `DailyRowSums` prove what they hold |
| `TransactionDao.DailyTransactionsByMonth` | app/src/main/java/com/example/expensemanager/data/dao/TransactionDao.kt:76-85 | `getDailyTransactionsByMonth`; `DailyDatesAreKeys`, `DailyDatesExact`, `DailyAscending`, `DailyRowSums` and `DailyRowsAddUp` prove its rows are one per date in range, ascending, with that date's two sums |
| `TransactionDao.DailyDatesAreKeys` | app/src/main/java/com/example/expensemanager/data/dao/TransactionDao.kt:81-83 | the dates of the daily rows are the distinct dates in range, in ascending stored order |
| `TransactionDao.DailyDatesExact` | app/src/main/java/com/example/expensemanager/data/dao/TransactionDao.kt:76-85 | every date present in range has one daily row, and no other date has one |
| `TransactionDao.DailyAscending` | app/src/main/java/com/example/expensemanager/data/dao/TransactionDao.kt:83 | the daily rows are strictly ascending by stored text, and by date for four-digit years |
| `TransactionDao.DailyRowSums` | app/src/main/java/com/example/expensemanager/data/dao/TransactionDao.kt:77-79 | each daily row holds the INCOME sum and the EXPENSE sum of exactly that date's rows in range |
| `TransactionDao.DailyAbsentDate` | app/src/main/java/com/example/expensemanager/data/dao/TransactionDao.kt:76-85 | a date without a daily row has no rows in range |
| `TransactionDao.DailyRowsAddUp` | app/src/main/java/com/example/expensemanager/data/dao/TransactionDao.kt:58-84 | the daily income values add up to the range's income total, and the expense values to its expense total |
| `TransactionDao.EmptyTable` | app/src/main/java/com/example/expensemanager/data/dao/TransactionDao.kt:90-91 | after `deleteAll` every list query is empty, the lookup finds nothing, and both totals are 0 |
| `CategoryDao.CategoryKey` | app/src/main/java/com/example/expensemanager/data/entity/CategoryEntity.kt:11-12 | the id column is the key: setting it changes the key and nothing else the key sees |
| `CategoryDao.TypeThenNameIsStrictOrder` | app/src/main/java/com/example/expensemanager/data/dao/CategoryDao.kt:41 | `ORDER BY type, name` is a strict order |
| `CategoryDao.NameLessIsStrictOrder` | app/src/main/java/com/example/expensemanager/data/dao/CategoryDao.kt:53 | `ORDER BY name` is a strict order |
| `CategoryDao.AllCategories` | app/src/main/java/com/example/expensemanager/data/dao/CategoryDao.kt:41-48 | every stored category, each as often as stored, ordered by type name and then by name |
| `CategoryDao.CategoriesByType` | app/src/main/java/com/example/expensemanager/data/dao/CategoryDao.kt:53-54 | exactly the categories of that type, each as often as stored, ordered by name |
| `CategoryDao.DefaultCategories` | app/src/main/java/com/example/expensemanager/data/dao/CategoryDao.kt:65-66 | exactly the categories with `isDefault` set, each as often as stored |
| `CategoryDao.ExpenseBeforeIncome` | app/src/main/java/com/example/expensemanager/data/dao/CategoryDao.kt:41-42 | in `getAllCategories` no INCOME category comes before an EXPENSE one, and names ascend within a type |
| `CategoryDao.DeleteNonDefaultKeepsDefaults` | app/src/main/java/com/example/expensemanager/data/dao/CategoryDao.kt:71-72 | after `deleteAllNonDefault` a key keeps its row, unchanged, exactly when it is a default category; the default set is the same |
| `CategoryDao.FilterTwice` | app/src/main/java/com/example/expensemanager/data/dao/CategoryDao.kt:65-72 | keeping the defaults of the defaults keeps the defaults |
| `CategoryDao.CategoryById` | app/src/main/java/com/example/expensemanager/data/dao/CategoryDao.kt:59-60 | `getCategoryById`; `CategoryByIdFinds` proves it finds a row exactly when one has the key, and then that row |
| `CategoryDao.AfterDeleteNonDefault` | app/src/main/java/com/example/expensemanager/data/dao/CategoryDao.kt:71-72 | the rows left by `deleteAllNonDefault`; `DeleteNonDefaultKeepsDefaults` proves a key keeps its row exactly when it is a default category |
| `CategoryDao.CategoryByIdFinds` | app/src/main/java/com/example/expensemanager/data/dao/CategoryDao.kt:59-60 | `getCategoryById` finds a row exactly when one has the key, and then that row |
| `AppDatabase.Seed` | app/src/main/java/com/example/expensemanager/data/AppDatabase.kt:73 | a seed is a new (key 0) default category with the given name, type, icon and colour |
| `AppDatabase.SeedShape` | app/src/main/java/com/example/expensemanager/data/AppDatabase.kt:71-89 | there are 14 seeds: the first 9 EXPENSE, the last 5 INCOME, all default and all without a key |
| `AppDatabase.SeedCounts` | app/src/main/java/com/example/expensemanager/data/AppDatabase.kt:73-88 | the seeds hold 9 EXPENSE and 5 INCOME categories |
| `AppDatabase.SeedNamesDistinct` | app/src/main/java/com/example/expensemanager/data/AppDatabase.kt:73-88 | no two seeds share a name |
| `AppDatabase.Database.constructor` | app/src/main/java/com/example/expensemanager/data/AppDatabase.kt:56-65 | on first creation the transactions table is empty and the categories table holds the seeds under keys 1..14; the seeding is taken as done when creation returns (see "## Left out") |
| `AppDatabase.CreatedCategories` | app/src/main/java/com/example/expensemanager/data/AppDatabase.kt:70-91 | after creation seed i is stored under key i + 1, keys ascend, and every stored category is a default one, so the protected set is non-empty |
| `TransactionRepository.MonthStart` | app/src/main/java/com/example/expensemanager/data/repository/TransactionRepository.kt:28-29 | `YearMonth.from(month).atDay(1)`; `RangeStylesAgree` proves it is `withDayOfMonth(1)` |
| `TransactionRepository.MonthEnd` | app/src/main/java/com/example/expensemanager/data/repository/TransactionRepository.kt:28-30 | `YearMonth.from(month).atEndOfMonth()`; `RangeStylesAgree` proves it is `withDayOfMonth(lengthOfMonth())` |
| `TransactionRepository.TransactionsByMonth` | app/src/main/java/com/example/expensemanager/data/repository/TransactionRepository.kt:27-32 | `getTransactionsByMonth(month)`; `MonthRangeIsMonth` proves its range holds exactly the month's dates for four-digit years |
| `TransactionRepository.TransactionsByMonthOnce` | app/src/main/java/com/example/expensemanager/data/repository/TransactionRepository.kt:37-41 | `getTransactionsByMonthOnce(month)`; `RangeStylesAgree` proves it equals `getTransactionsByMonth(month)` |
| `TransactionRepository.TotalIncomeByMonth` | app/src/main/java/com/example/expensemanager/data/repository/TransactionRepository.kt:46-51 | the month's INCOME total; `BalanceIsNet` and `ChartAddsUp` use it as the sum of the month's INCOME amounts |
| `TransactionRepository.TotalExpenseByMonth` | app/src/main/java/com/example/expensemanager/data/repository/TransactionRepository.kt:56-61 | the month's EXPENSE total; `BalanceIsNet` and `ChartAddsUp` use it as the sum of the month's EXPENSE amounts |
| `TransactionRepository.BalanceByMonth` | app/src/main/java/com/example/expensemanager/data/repository/TransactionRepository.kt:66-73 | `getBalanceByMonth`; `BalanceIsNet` proves it is the month's INCOME sum minus its EXPENSE sum |
| `TransactionRepository.DailyMap` | app/src/main/java/com/example/expensemanager/data/repository/TransactionRepository.kt:83-86 | the daily rows keyed by date; `ChartDayTotals` proves what each day then shows |
| `TransactionRepository.DayEntry` | app/src/main/java/com/example/expensemanager/data/repository/TransactionRepository.kt:89-95 | the entry for a day is dated that day and carries its daily row's totals, or 0 and 0 when there is no row |
| `TransactionRepository.ChartDays` | app/src/main/java/com/example/expensemanager/data/repository/TransactionRepository.kt:85-96 | one entry per day of the month, entry i for day i + 1 |
| `TransactionRepository.ChartDataByMonth` | app/src/main/java/com/example/expensemanager/data/repository/TransactionRepository.kt:78-98 | exactly `lengthOfMonth` entries, entry i dated (year, month, i + 1) |
| `TransactionRepository.RangeStylesAgree` | app/src/main/java/com/example/expensemanager/data/repository/TransactionRepository.kt:28-40 | `atDay(1)`/`atEndOfMonth()` and `withDayOfMonth(1)`/`withDayOfMonth(lengthOfMonth())` give the same range, so both month queries agree |
| `TransactionRepository.MonthRangeIsMonth` | app/src/main/java/com/example/expensemanager/data/repository/TransactionRepository.kt:28-31 | for four-digit years a row is in the month range exactly when it is dated in that month |
| `TransactionRepository.BalanceIsNet` | app/src/main/java/com/example/expensemanager/data/repository/TransactionRepository.kt:66-73 | the balance is the month's INCOME sum minus its EXPENSE sum |
| `TransactionRepository.ChartAscending` | app/src/main/java/com/example/expensemanager/data/repository/TransactionRepository.kt:88-89 | the series' dates are strictly ascending |
| `TransactionRepository.ChartHasDay` | app/src/main/java/com/example/expensemanager/data/repository/TransactionRepository.kt:88-89 | every date of the month has its entry, at the position of its day |
| `TransactionRepository.ChartDayTotals` | app/src/main/java/com/example/expensemanager/data/repository/TransactionRepository.kt:86-95 | each entry carries the INCOME and EXPENSE sums of that day's rows, 0 and 0 for a day without rows |
| `TransactionRepository.ChartKeys` | app/src/main/java/com/example/expensemanager/data/repository/TransactionRepository.kt:85-96 | the series' dates are distinct and include the date of every row of the month |
| `TransactionRepository.ChartKeysDistinct` | app/src/main/java/com/example/expensemanager/data/repository/TransactionRepository.kt:88-89 | no date appears twice in the series |
| `TransactionRepository.ChartKeysCover` | app/src/main/java/com/example/expensemanager/data/repository/TransactionRepository.kt:85-89 | every row of the month has its date in the series |
| `TransactionRepository.ChartAddsUp` | app/src/main/java/com/example/expensemanager/data/repository/TransactionRepository.kt:46-98 | for four-digit years the series' income adds up to the month's income total, and its expense to the expense total |
| `Views.LaterIsStrictTotalOrder` | app/src/main/java/com/example/expensemanager/feature/report/CategoryReportDetailViewModel.kt:62 | `compareByDescending { it }` on dates is a strict total order |
| `Views.ByDateDescendingOrder` | app/src/main/java/com/example/expensemanager/feature/report/CategoryReportDetailViewModel.kt:61-62 | `groupBy { it.date }.toSortedMap(compareByDescending { it })` lists dates strictly descending, so no date has two groups |
| `Views.ByDateDescendingGroups` | app/src/main/java/com/example/expensemanager/feature/report/CategoryReportDetailViewModel.kt:61-63 | every group is non-empty and holds exactly its date's transactions, in input order |
| `Views.ByDateDescendingCovers` | app/src/main/java/com/example/expensemanager/feature/report/CategoryReportDetailViewModel.kt:61 | every transaction's date has a group |
| `Views.ByDateDescendingPresent` | app/src/main/java/com/example/expensemanager/feature/report/CategoryReportDetailViewModel.kt:61 | every group's date is carried by some transaction |
| `Views.ByDateDescendingPartition` | app/src/main/java/com/example/expensemanager/feature/report/CategoryReportDetailViewModel.kt:61-65 | every transaction lands in exactly one group, and any per-row sum over the groups is the sum over the input |
| `Views.TruncDivRemainder` | app/src/main/java/com/example/expensemanager/feature/report/CategoryReportDetailViewModel.kt:54 | Kotlin's `/` truncates: the remainder is smaller than the divisor and has the dividend's sign; on non-negative operands it is floor division |
| `CategoryReportDetail.YearOfEraField` | app/src/main/java/com/example/expensemanager/feature/report/CategoryReportDetailViewModel.kt:38-41 | the "yyyy" field reads a year ending at index 4 or later inside the text, or fails at index 0 or 1 |
| `CategoryReportDetail.YearDigits` | app/src/main/java/com/example/expensemanager/feature/report/CategoryReportDetailViewModel.kt:38-41 | the year's digits after an optional sign end at index 4 or later inside the text, or fail at index 0 or 1 |
| `CategoryReportDetail.SignedYear` | app/src/main/java/com/example/expensemanager/feature/report/CategoryReportDetailViewModel.kt:38-41 | 4 to 19 year digits end where the digits end, or one digit earlier when a 19-digit value leaves `Long`; a sign the strict `EXCEEDS_PAD` style refuses is an error at index 0 |
| `CategoryReportDetail.TwoDigitField` | app/src/main/java/com/example/expensemanager/feature/report/CategoryReportDetailViewModel.kt:38-41 | "MM" and "dd" succeed exactly on two digits at the index, giving their value and the index after them, and otherwise fail at that index |
| `CategoryReportDetail.Resolve` | app/src/main/java/com/example/expensemanager/feature/report/CategoryReportDetailViewModel.kt:38-41 | the fields resolve exactly when the year of era is 1..999999999, the month 1..12 and the day 1..31, to the date with the day clamped to the month's length; otherwise the first check that fails, in the resolver's order, is named with its value: the year of era (1 - 999999999/1000000000), then the proleptic year (-999999999 - 999999999, which refuses 1000000000), then the month, then the day |
| `CategoryReportDetail.PatternParse` | app/src/main/java/com/example/expensemanager/feature/report/CategoryReportDetailViewModel.kt:38-41 | `LocalDate.parse` with "yyyy-MM-dd": a refusal's index is inside the text or at its end, left-over text starts inside it, and a parsed date has a year of at least 1 |
| `CategoryReportDetail.AfterYear` | app/src/main/java/com/example/expensemanager/feature/report/CategoryReportDetailViewModel.kt:38-41 | the text after the year: the same bounds on refusal and left-over indices, and a year of at least 1 on success |
| `CategoryReportDetail.AfterMonth` | app/src/main/java/com/example/expensemanager/feature/report/CategoryReportDetailViewModel.kt:38-41 | the text after the month: the same bounds on refusal and left-over indices, and a year of at least 1 on success |
| `CategoryReportDetail.ParsePatternDate` | app/src/main/java/com/example/expensemanager/feature/report/CategoryReportDetailViewModel.kt:38-41 | a date is parsed exactly when `PatternParse` succeeds, it is that date, and its year is at least 1 |
| `CategoryReportDetail.Abbreviated` | app/src/main/java/com/example/expensemanager/feature/report/CategoryReportDetailViewModel.kt:102-108 | the exception quotes a text of up to 64 characters whole, and a longer one as its first 64 characters and "..." |
| `CategoryReportDetail.LongText` | app/src/main/java/com/example/expensemanager/feature/report/CategoryReportDetailViewModel.kt:102-108 | `Long.toString` is the decimal digits of the value, after a '-' for a negative one |
| `CategoryReportDetail.ParseFailure` | app/src/main/java/com/example/expensemanager/feature/report/CategoryReportDetailViewModel.kt:102-108 | the `DateTimeParseException` message is "Text '…' could not be parsed" with the quoted text, followed by the error's own words |
| `CategoryReportDetail.MessageIndexReadsBack` | app/src/main/java/com/example/expensemanager/feature/report/CategoryReportDetailViewModel.kt:102-108 | the digits that end a message about a refusal or left-over text read back as the index of the error |
| `CategoryReportDetail.YearFieldOf` | app/src/main/java/com/example/expensemanager/feature/report/CategoryReportDetailViewModel.kt:38-41 | on a sign or none, 4 to 19 digits and a non-digit, the year field is `SignedYear` of those digits |
| `CategoryReportDetail.YearOfEraParts` | app/src/main/java/com/example/expensemanager/feature/report/CategoryReportDetailViewModel.kt:38-41 | a sign that agrees with 4 to 18 digits reads the signed value and stops after the digits |
| `CategoryReportDetail.PatternAt` | app/src/main/java/com/example/expensemanager/feature/report/CategoryReportDetailViewModel.kt:38-41 | a year followed by "-MM-DD" resolves the three values when nothing follows, and otherwise fails as left-over text 6 characters after the year |
| `CategoryReportDetail.PatternParts` | app/src/main/java/com/example/expensemanager/feature/report/CategoryReportDetailViewModel.kt:38-41 | a sign agreeing with 4 to 18 year digits, '-', two month digits, '-' and two day digits parse exactly as `Resolve` of their values |
| `CategoryReportDetail.PatternRefusesNonDigitStart` | app/src/main/java/com/example/expensemanager/feature/report/CategoryReportDetailViewModel.kt:38-41 | an empty text, or one starting with neither a digit nor a sign, is refused at index 0 |
| `CategoryReportDetail.PatternSignRules` | app/src/main/java/com/example/expensemanager/feature/report/CategoryReportDetailViewModel.kt:38-41 | a '+' before four year digits, no sign before more than four, and '-' before an all-zero year are each refused at index 0 |
| `CategoryReportDetail.PatternRefusesTrailingText` | app/src/main/java/com/example/expensemanager/feature/report/CategoryReportDetailViewModel.kt:38-41 | text after a well-formed date is refused as left over at the index where it starts, before the fields are resolved |
| `CategoryReportDetail.PatternReadsStoredText` | app/src/main/java/com/example/expensemanager/feature/report/CategoryReportDetailViewModel.kt:39-42 | the pattern reads back every date `fromLocalDate` writes, for years from 1 on |
| `CategoryReportDetail.PatternRefusesYearPastMax` | app/src/main/java/com/example/expensemanager/feature/report/CategoryReportDetailViewModel.kt:38-41 | "+1000000000-MM-DD" passes the year-of-era check and is refused as `Year`, whatever the month and day, with the message "…: Invalid value for Year (valid values -999999999 - 999999999): 1000000000" |
| `CategoryReportDetail.PatternRefusesNonPositiveYears` | app/src/main/java/com/example/expensemanager/feature/report/CategoryReportDetailViewModel.kt:38-41 | the written text of a date in year 0 or before is refused by the resolver, which names the year of era and the year's value |
| `CategoryReportDetail.PatternClampsDay` | app/src/main/java/com/example/expensemanager/feature/report/CategoryReportDetailViewModel.kt:39-42 | a four-digit year parses exactly with month 1..12 and day 1..31, a day past the month's end becoming its last day |
| `CategoryReportDetail.ItemOf` | app/src/main/java/com/example/expensemanager/feature/report/CategoryReportDetailViewModel.kt:67-82 | an item keeps the row's id, note and amount; a resolved category gives its name, icon and colour; an unresolved one gives "Khác", no icon and colour 0xFF607D8B |
| `CategoryReportDetail.DateText` | app/src/main/java/com/example/expensemanager/feature/report/CategoryReportDetailViewModel.kt:64-86 | "'Th'M dd": "Th", the month unpadded, a space and the two-digit day; `DetailGroups` shows it per group |
| `CategoryReportDetail.CategoryRows` | app/src/main/java/com/example/expensemanager/feature/report/CategoryReportDetailViewModel.kt:44-46 | the range's rows of the category; `CategoryRowsSelect` proves they are exactly the stored rows within the range with that category |
| `CategoryReportDetail.DetailOf` | app/src/main/java/com/example/expensemanager/feature/report/CategoryReportDetailViewModel.kt:52-90 | the statistics and date groups of the rows; `DetailStatistics`, `DetailGroups` and `DetailGroupsAddUp` prove what they are |
| `CategoryReportDetail.LoadResult` | app/src/main/java/com/example/expensemanager/feature/report/CategoryReportDetailViewModel.kt:38-90 | succeeds exactly when both texts parse, with the detail of the category's rows in that range; a start text that does not parse fails with its exception message, then an end text that does not parse fails with its own |
| `CategoryReportDetail.CategoryRowsSelect` | app/src/main/java/com/example/expensemanager/feature/report/CategoryReportDetailViewModel.kt:44-46 | exactly the stored rows within [start, end] (both ends included) with the category id, each as often as stored |
| `CategoryReportDetail.DaysWithTransactions` | app/src/main/java/com/example/expensemanager/feature/report/CategoryReportDetailViewModel.kt:57 | `map { it.date }.distinct().size` is the number of distinct dates |
| `CategoryReportDetail.DetailStatistics` | app/src/main/java/com/example/expensemanager/feature/report/CategoryReportDetailViewModel.kt:52-58 | total is the sum of the amounts, count their number; both averages truncate, dividing by the count and by the number of distinct dates, and are 0 when there are no rows |
| `CategoryReportDetail.DetailGroups` | app/src/main/java/com/example/expensemanager/feature/report/CategoryReportDetailViewModel.kt:61-89 | one group per distinct date, latest first; each shows its date text, the sum of that date's amounts and one item per row |
| `CategoryReportDetail.DetailGroupsAddUp` | app/src/main/java/com/example/expensemanager/feature/report/CategoryReportDetailViewModel.kt:52-65 | the group totals add up to the total |
| `CategoryReportDetail.CategoryReportDetailViewModel.constructor` | app/src/main/java/com/example/expensemanager/feature/report/CategoryReportDetailViewModel.kt:114-122 | the initial state: zero statistics, no groups, not loading, no error |
| `CategoryReportDetail.CategoryReportDetailViewModel.LoadData` | app/src/main/java/com/example/expensemanager/feature/report/CategoryReportDetailViewModel.kt:34-111 | loading always ends with `isLoading` false; a parse failure or a store exception sets the error and keeps the old results; otherwise the state shows the results and keeps the error |
| `Report.PeriodStart` | app/src/main/java/com/example/expensemanager/feature/report/ReportViewModel.kt:63-71 | the period's first day; `YearPeriod` and `MonthPeriod` prove the period is the selected year or month |
| `Report.PeriodEnd` | app/src/main/java/com/example/expensemanager/feature/report/ReportViewModel.kt:63-71 | the period's last day; `YearPeriod` and `MonthPeriod` prove the period is the selected year or month |
| `Report.PeriodRows` | app/src/main/java/com/example/expensemanager/feature/report/ReportViewModel.kt:73-80 | the period's rows of the selected type; `PeriodRowsSelect` proves they are exactly the stored rows in the period with that type |
| `Report.Percentage` | app/src/main/java/com/example/expensemanager/feature/report/ReportViewModel.kt:93 | the share of the total in percent, 0 when the total is not positive; `ZeroTotalZeroPercent` states the zero case |
| `Report.StatOf` | app/src/main/java/com/example/expensemanager/feature/report/ReportViewModel.kt:90-110 | the stat of one category group; `StatIsItsCategory` proves its sum, count, share and category fields |
| `Report.Breakdown` | app/src/main/java/com/example/expensemanager/feature/report/ReportViewModel.kt:84-111 | the stats grouped by category and sorted by amount; `OneStatPerCategory`, `StatsCoverCategories`, `StatsAddUp` and `StatsDescending` prove their contents and order |
| `Report.ReportOf` | app/src/main/java/com/example/expensemanager/feature/report/ReportViewModel.kt:73-111 | what a load computes; `ReportAddsUp` proves the total is the sum of the counted rows and the stats add up to it |
| `Report.YearPeriod` | app/src/main/java/com/example/expensemanager/feature/report/ReportViewModel.kt:63-66 | in year mode a transaction is in the period [1 January, 31 December] exactly when its date is in the selected year |
| `Report.MonthPeriod` | app/src/main/java/com/example/expensemanager/feature/report/ReportViewModel.kt:68-70 | in month mode a transaction is in the period [first of month, last of month] exactly when its date is in the selected month |
| `Report.PeriodRowsSelect` | app/src/main/java/com/example/expensemanager/feature/report/ReportViewModel.kt:73-80 | the counted rows are exactly the stored rows in the period whose type is the selected one, each as often as stored |
| `Report.GroupStatsAt` | app/src/main/java/com/example/expensemanager/feature/report/ReportViewModel.kt:90 | the stats are made one per category group, in group order |
| `Report.StatCategories` | app/src/main/java/com/example/expensemanager/feature/report/ReportViewModel.kt:84-90 | before sorting, the stat ids are the distinct category ids of the rows in first-appearance order |
| `Report.BreakdownIds` | app/src/main/java/com/example/expensemanager/feature/report/ReportViewModel.kt:90-111 | sorting by amount only reorders the stats' category ids |
| `Report.OneStatPerCategory` | app/src/main/java/com/example/expensemanager/feature/report/ReportViewModel.kt:84-111 | no category id has two stats |
| `Report.StatsCoverCategories` | app/src/main/java/com/example/expensemanager/feature/report/ReportViewModel.kt:84-111 | a category id has a stat exactly when some counted row carries it |
| `Report.StatIsItsCategory` | app/src/main/java/com/example/expensemanager/feature/report/ReportViewModel.kt:90-110 | each stat has the sum and the number of its category's rows and its share of the total; a known category gives its id, name, icon and parsed colour, an unknown one id 0, "Khác", no icon and colour 0xFF607D8B |
| `Report.BreakdownFromGroup` | app/src/main/java/com/example/expensemanager/feature/report/ReportViewModel.kt:90-111 | each sorted stat is the stat of one category's group |
| `Report.GroupStatsSums` | app/src/main/java/com/example/expensemanager/feature/report/ReportViewModel.kt:92-109 | the stat amounts and counts add up to those of the groups |
| `Report.StatsAddUp` | app/src/main/java/com/example/expensemanager/feature/report/ReportViewModel.kt:87-111 | the stat amounts add up to the total, and the counts to the number of counted rows |
| `Report.LargerAmountIsStrictOrder` | app/src/main/java/com/example/expensemanager/feature/report/ReportViewModel.kt:111 | "larger amount first" is a strict order, so the stable sort applies |
| `Report.StatsDescending` | app/src/main/java/com/example/expensemanager/feature/report/ReportViewModel.kt:111 | the stats are listed with non-increasing amounts |
| `Report.ZeroTotalZeroPercent` | app/src/main/java/com/example/expensemanager/feature/report/ReportViewModel.kt:93 | with a zero total every percentage is 0 |
| `Report.ReportAddsUp` | app/src/main/java/com/example/expensemanager/feature/report/ReportViewModel.kt:73-118 | a load's total is the sum of the counted rows, the stats add up to it, and their counts to the number of counted rows |
| `Report.ReportViewModel.constructor` | app/src/main/java/com/example/expensemanager/feature/report/ReportViewModel.kt:24-29 | the initial state is the current month, expenses, month mode, followed by the first load |
| `Report.ReportViewModel.LoadData` | app/src/main/java/com/example/expensemanager/feature/report/ReportViewModel.kt:51-129 | the period and type are kept; on success the stats and total become those of the period and the error is kept; on an exception the results are kept and the error set; loading ends in both cases |
| `Report.ReportViewModel.OnTypeChanged` | app/src/main/java/com/example/expensemanager/feature/report/ReportViewModel.kt:31-34 | the type changes, the period stays, and the report is reloaded for the new type |
| `Report.ReportViewModel.OnMonthChanged` | app/src/main/java/com/example/expensemanager/feature/report/ReportViewModel.kt:36-39 | month mode on the chosen month, the type kept, then the reload |
| `Report.ReportViewModel.OnYearChanged` | app/src/main/java/com/example/expensemanager/feature/report/ReportViewModel.kt:41-49 | year mode on 1 January of the chosen year, the type kept, then the reload |
| `TransactionDetail.ItemOf` | app/src/main/java/com/example/expensemanager/feature/transactiondetail/TransactionDetailViewMode.kt:53-66 | an item keeps the row's id, note and amount and flags income; a known category gives its name, colour and icon, an unknown one "Khác" with neither |
| `TransactionDetail.DayGroupOf` | app/src/main/java/com/example/expensemanager/feature/transactiondetail/TransactionDetailViewMode.kt:49-74 | one day's group; `BuildDayGroup` proves the source's running totals compute it and `GroupTotalsAt` that its totals are the sums over the date's rows |
| `TransactionDetail.MonthGroups` | app/src/main/java/com/example/expensemanager/feature/transactiondetail/TransactionDetailViewMode.kt:42-75 | the month's day groups; `GroupsShape`, `GroupsCover` and `MonthGroupsTotals` prove their order, coverage and totals |
| `TransactionDetail.GroupsOf` | app/src/main/java/com/example/expensemanager/feature/transactiondetail/TransactionDetailViewMode.kt:47-75 | one day group per date group, latest date first |
| `TransactionDetail.BuildDayGroup` | app/src/main/java/com/example/expensemanager/feature/transactiondetail/TransactionDetailViewMode.kt:49-75 | the two running totals end as the day's income and the day's other amounts, with one item per row in order |
| `TransactionDetail.BuildDayGroups` | app/src/main/java/com/example/expensemanager/feature/transactiondetail/TransactionDetailViewMode.kt:49 | the `map` over the date groups builds each day in turn |
| `TransactionDetail.GroupByDay` | app/src/main/java/com/example/expensemanager/feature/transactiondetail/TransactionDetailViewMode.kt:47-75 | the grouping pipeline yields the day groups of the rows |
| `TransactionDetail.MonthRowsAgree` | app/src/main/java/com/example/expensemanager/feature/transactiondetail/TransactionDetailViewMode.kt:42 | the month's rows as the query returns them are the rows of the month |
| `TransactionDetail.GroupsShape` | app/src/main/java/com/example/expensemanager/feature/transactiondetail/TransactionDetailViewMode.kt:47-75 | the day groups come strictly latest first, each non-empty with one item per row of its date and that date's income and expense sums |
| `TransactionDetail.GroupsCover` | app/src/main/java/com/example/expensemanager/feature/transactiondetail/TransactionDetailViewMode.kt:47 | every date with a transaction has its day group |
| `TransactionDetail.GroupTotalsAt` | app/src/main/java/com/example/expensemanager/feature/transactiondetail/TransactionDetailViewMode.kt:50-74 | each day group's totals are the sums over its date's rows |
| `TransactionDetail.GroupsIncome` | app/src/main/java/com/example/expensemanager/feature/transactiondetail/TransactionDetailViewMode.kt:77 | the income summed over the day groups is the income of all the rows |
| `TransactionDetail.GroupsExpense` | app/src/main/java/com/example/expensemanager/feature/transactiondetail/TransactionDetailViewMode.kt:78 | the expense summed over the day groups is the expense of all the rows |
| `TransactionDetail.MonthSumsAreQueries` | app/src/main/java/com/example/expensemanager/feature/transactiondetail/TransactionDetailViewMode.kt:42 | the sums over the month's rows are what the SUM queries return for the month |
| `TransactionDetail.MonthGroupsTotals` | app/src/main/java/com/example/expensemanager/feature/transactiondetail/TransactionDetailViewMode.kt:77-79 | the screen's totals equal the month's SUM queries, and its balance the repository's balance of the month |
| `TransactionDetail.TransactionDetailViewModel.constructor` | app/src/main/java/com/example/expensemanager/feature/transactiondetail/TransactionDetailViewMode.kt:26-31 | the state starts on today's month and loads it: on success its day groups, their summed income and expense and the balance; on a failure no groups, zero totals and the error |
| `TransactionDetail.TransactionDetailViewModel.OnMonthChanged` | app/src/main/java/com/example/expensemanager/feature/transactiondetail/TransactionDetailViewMode.kt:33-36 | the month is selected and loaded |
| `TransactionDetail.TransactionDetailViewModel.LoadDataForMonth` | app/src/main/java/com/example/expensemanager/feature/transactiondetail/TransactionDetailViewMode.kt:38-100 | success shows the month's day groups, their summed totals and the balance, the error cleared; a failure keeps the results and shows the message or "Lỗi tải dữ liệu"; loading ends either way |
| `TransactionDetailItem.UiOf` | app/src/main/java/com/example/expensemanager/feature/transactiondetail/TransactionDetailItemViewModel.kt:35-45 | the shown item keeps the row's fields, flags income, carries the category colour and icon, and names "Không có danh mục" when there is no category |
| `TransactionDetailItem.ShownTransaction` | app/src/main/java/com/example/expensemanager/feature/transactiondetail/TransactionDetailItemViewModel.kt:32-45 | a stored transaction is found and shown with its own id and amount and its category's name, or the placeholder |
| `TransactionDetailItem.DeleteRemovesOnlyThat` | app/src/main/java/com/example/expensemanager/feature/transactiondetail/TransactionDetailItemViewModel.kt:69-72 | after the delete the key finds nothing and every other key finds its old row |
| `TransactionDetailItem.TransactionDetailItemViewModel.constructor` | app/src/main/java/com/example/expensemanager/feature/transactiondetail/TransactionDetailItemViewModel.kt:85-89 | no transaction, not loading, no error |
| `TransactionDetailItem.TransactionDetailItemViewModel.LoadTransaction` | app/src/main/java/com/example/expensemanager/feature/transactiondetail/TransactionDetailItemViewModel.kt:27-61 | a found row is shown; a missing one sets "Không tìm thấy giao dịch"; an exception sets "Có lỗi xảy ra: " and its message; the error is cleared first and loading ends in each case |
| `TransactionDetailItem.TransactionDetailItemViewModel.DeleteTransaction` | app/src/main/java/com/example/expensemanager/feature/transactiondetail/TransactionDetailItemViewModel.kt:66-79 | the row with that key is removed when present and nothing changes otherwise; an exception leaves the table and sets "Không thể xóa giao dịch: " and its message |
| `Search.ItemOf` | app/src/main/java/com/example/expensemanager/feature/search/SearchViewModel.kt:57-65 | an item keeps the row's id, amount, note and date, flags income, and names the category or "Unknown" |
| `Search.Items` | app/src/main/java/com/example/expensemanager/feature/search/SearchViewModel.kt:56-66 | one item per transaction, in order |
| `Search.Arrange` | app/src/main/java/com/example/expensemanager/feature/search/SearchViewModel.kt:67-71 | `groupBy { it.date }` then latest date first; `ArrangeOrder`, `ArrangeGroups` and `ArrangePartition` prove the groups' order and contents |
| `Search.MatchesDateFilter` | app/src/main/java/com/example/expensemanager/feature/search/SearchViewModel.kt:100-104 | the date window; `DateWindows` proves "month" is today's month, "year" today's year, and any other filter lets everything through |
| `Search.MatchesQuery` | app/src/main/java/com/example/expensemanager/feature/search/SearchViewModel.kt:107-113 | the query test; `QueryMatching` proves a non-blank query matches the lowercased category name or note |
| `Search.InitialResults` | app/src/main/java/com/example/expensemanager/feature/search/SearchViewModel.kt:45-71 | the first load's groups; `InitialIsSearchAll` proves they are a search with a blank query and no date window |
| `Search.SearchResults` | app/src/main/java/com/example/expensemanager/feature/search/SearchViewModel.kt:97-131 | a search's groups; `SearchFindsEachOnce` and `SearchShowsOnlyMatches` prove each matching row shows up exactly once and nothing else does |
| `Search.GroupLaterOrdersByKey` | app/src/main/java/com/example/expensemanager/feature/search/SearchViewModel.kt:71 | sorting groups latest first orders them by their dates |
| `Search.ArrangeIsSortedGroups` | app/src/main/java/com/example/expensemanager/feature/search/SearchViewModel.kt:67-71 | grouping by date and then sorting the groups latest first is grouping over the dates sorted latest first |
| `Search.ArrangeOrder` | app/src/main/java/com/example/expensemanager/feature/search/SearchViewModel.kt:67-71 | the result groups come strictly latest first, so no date has two groups |
| `Search.ArrangeGroups` | app/src/main/java/com/example/expensemanager/feature/search/SearchViewModel.kt:67-70 | every group is non-empty and holds the items of its date in input order |
| `Search.ArrangePartition` | app/src/main/java/com/example/expensemanager/feature/search/SearchViewModel.kt:67-70 | the groups hold every item as often as it occurs |
| `Search.InitialIsSearchAll` | app/src/main/java/com/example/expensemanager/feature/search/SearchViewModel.kt:45-131 | the initial load shows what a search with a blank query and no date window shows |
| `Search.FilteredOnce` | app/src/main/java/com/example/expensemanager/feature/search/SearchViewModel.kt:97-131 | a row whose key is unique shows up once when it passes the filter and not at all otherwise |
| `Search.FilteredOnly` | app/src/main/java/com/example/expensemanager/feature/search/SearchViewModel.kt:97-131 | every shown item is the item of some row that passes the filter |
| `Search.SearchFindsEachOnce` | app/src/main/java/com/example/expensemanager/feature/search/SearchViewModel.kt:97-131 | a stored transaction shows up exactly once when it passes both the date and the query test, and never otherwise |
| `Search.SearchShowsOnlyMatches` | app/src/main/java/com/example/expensemanager/feature/search/SearchViewModel.kt:97-131 | every item in the results is the item of a stored row that passes both tests |
| `Search.SameKeySameRow` | app/src/main/java/com/example/expensemanager/feature/search/SearchViewModel.kt:92 | in a table with unique keys two rows with one key are one row |
| `Search.RowsDistinct` | app/src/main/java/com/example/expensemanager/feature/search/SearchViewModel.kt:92 | a table with unique keys holds no row twice |
| `Search.DateWindows` | app/src/main/java/com/example/expensemanager/feature/search/SearchViewModel.kt:100-104 | "month" is today's calendar month from its first to its last day and lies inside "year"; any other filter text lets everything through |
| `Search.QueryMatching` | app/src/main/java/com/example/expensemanager/feature/search/SearchViewModel.kt:107-113 | a non-blank query matches the lowercased category name or note; without a category only the note matches, while the item shows "Unknown" |
| `Text.LowerCharIdempotent` | app/src/main/java/com/example/expensemanager/feature/search/SearchViewModel.kt:110-112 | lowercasing a character twice is lowercasing it once, and keeps whitespace whitespace |
| `Text.LowerIdempotent` | app/src/main/java/com/example/expensemanager/feature/search/SearchViewModel.kt:107-110 | lowercasing a text twice is lowercasing it once, and keeps a blank text blank |
| `Search.SearchIgnoresQueryCase` | app/src/main/java/com/example/expensemanager/feature/search/SearchViewModel.kt:107-112 | lowercasing the query first does not change the results |
| `Search.SearchViewModel.constructor` | app/src/main/java/com/example/expensemanager/feature/search/SearchViewModel.kt:29-43 | the default state followed by the initial load of every transaction |
| `Search.SearchViewModel.LoadAllTransactions` | app/src/main/java/com/example/expensemanager/feature/search/SearchViewModel.kt:45-82 | the results become every transaction grouped by date when the reads complete; an exception keeps the old results; loading ends either way |
| `Search.SearchViewModel.Search` | app/src/main/java/com/example/expensemanager/feature/search/SearchViewModel.kt:84-142 | the results become the matching transactions grouped by date when the reads complete; an exception keeps the old results; loading ends either way |
| `DailyStats.NonEmptyDays` | app/src/main/java/com/example/expensemanager/feature/home/HomeScreen.kt:508-511 | the days with activity, earliest first; `NonEmptyDaysExact` proves they are exactly the days with a non-zero amount |
| `DailyStats.Summarize` | app/src/main/java/com/example/expensemanager/feature/home/HomeScreen.kt:524-554 | the table's figures; `TotalsOverAllDays`, `Averages` and `RunningBalance` prove the totals, the truncated averages and the running balance |
| `DailyStats.Table` | app/src/main/java/com/example/expensemanager/feature/home/HomeScreen.kt:497-554 | the table, or none; `TableAbsent` proves none is shown exactly when there are no days or no day has activity |
| `DailyStats.Cell` | app/src/main/java/com/example/expensemanager/feature/home/HomeScreen.kt:633-639 | a cell shows "-" exactly for a zero amount and the amount otherwise |
| `DailyStats.DayText` | app/src/main/java/com/example/expensemanager/feature/home/HomeScreen.kt:628 | the day text is two digits that read back as the day of the month |
| `DailyStats.Rows` | app/src/main/java/com/example/expensemanager/feature/home/HomeScreen.kt:623-651 | one row per day with activity, row k showing day k |
| `DailyStats.DailyStatsTable` | app/src/main/java/com/example/expensemanager/feature/home/HomeScreen.kt:492-653 | the table the composable lays out, computed step by step, is the table of the data |
| `DailyStats.RunningRows` | app/src/main/java/com/example/expensemanager/feature/home/HomeScreen.kt:621-651 | the loop that adds each day's net to `runningBalance` before its row yields the rows of the days |
| `DailyStats.PrefixSumStep` | app/src/main/java/com/example/expensemanager/feature/home/HomeScreen.kt:624 | each step adds one day's net to the running sum |
| `DailyStats.NetSum` | app/src/main/java/com/example/expensemanager/feature/home/HomeScreen.kt:621-624 | the sum of the nets is total income minus total expense |
| `DailyStats.EarlierIsStrictOrder` | app/src/main/java/com/example/expensemanager/feature/home/HomeScreen.kt:510 | "earlier date" is a strict order, so the stable sort applies |
| `DailyStats.NonEmptyDaysExact` | app/src/main/java/com/example/expensemanager/feature/home/HomeScreen.kt:508-511 | the kept days are exactly the days with a non-zero income or expense, each as often as in the data, earliest first |
| `DailyStats.TableAbsent` | app/src/main/java/com/example/expensemanager/feature/home/HomeScreen.kt:497-522 | no table is shown exactly when there are no days or no day has activity |
| `DailyStats.TotalsOverAllDays` | app/src/main/java/com/example/expensemanager/feature/home/HomeScreen.kt:524-554 | the totals over the kept days equal those over all days, since the dropped days add nothing |
| `DailyStats.Averages` | app/src/main/java/com/example/expensemanager/feature/home/HomeScreen.kt:526-528 | the averages divide the totals by the number of kept days, truncating, so they miss the exact quotient by less than one; the balance average is their difference |
| `DailyStats.RunningBalance` | app/src/main/java/com/example/expensemanager/feature/home/HomeScreen.kt:621-645 | the first row's balance is the first day's net, each row adds its day's net to the previous one, and the last row ends on the total balance |
| `DailyStats.RowCells` | app/src/main/java/com/example/expensemanager/feature/home/HomeScreen.kt:626-650 | each row shows its day of the month and its amounts, "-" for a zero amount |
| `DailyStats.MonthSeriesKeepsOrder` | app/src/main/java/com/example/expensemanager/feature/home/HomeScreen.kt:508-511 | on a month's chart series, which already ascends, the sort changes nothing: the rows are the active days in calendar order |
| `DailyStats.FilterKeepsAscending` | app/src/main/java/com/example/expensemanager/feature/home/HomeScreen.kt:509 | dropping the inactive days keeps the dates ascending |
| `DailyStats.AscendingIsSorted` | app/src/main/java/com/example/expensemanager/feature/home/HomeScreen.kt:510 | strictly ascending dates are sorted in the sense of the sort's order |
| `AddTransaction.ParseAmount` | app/src/main/java/com/example/expensemanager/feature/addtransaction/AddTransactionViewModel.kt:74 | the amount is the digits' value when it fits a `Long` and 0 beyond `Long.MAX_VALUE` |
| `AddTransaction.AmountEntry` | app/src/main/java/com/example/expensemanager/feature/addtransaction/AddTransactionViewModel.kt:65-83 | the new amount and its display; `AmountEntryMeaning` proves only digits count and the display reads back as the amount, `AmountEntryStable` that entering the display again changes nothing |
| `AddTransaction.AmountEntryMeaning` | app/src/main/java/com/example/expensemanager/feature/addtransaction/AddTransactionViewModel.kt:65-83 | only the digits of the text count; no digits give amount 0 and an empty text; otherwise the amount is their value (0 past `Long.MAX_VALUE`) and the shown text, dots dropped, reads back as the amount |
| `AddTransaction.GroupedChars` | app/src/main/java/com/example/expensemanager/feature/addtransaction/AddTransactionViewModel.kt:77-80 | the grouped display holds only digits and separator dots |
| `AddTransaction.DigitsOfDotted` | app/src/main/java/com/example/expensemanager/feature/addtransaction/AddTransactionViewModel.kt:67 | keeping the digits of a grouped display is dropping its dots |
| `AddTransaction.AmountEntryStable` | app/src/main/java/com/example/expensemanager/feature/addtransaction/AddTransactionViewModel.kt:65-83 | entering the shown amount text again changes nothing |
| `AddTransaction.SaveCheck` | app/src/main/java/com/example/expensemanager/feature/addtransaction/AddTransactionViewModel.kt:148-156 | a non-positive amount gives "Vui lòng nhập số tiền"; then a missing category gives "Vui lòng chọn danh mục"; otherwise no error |
| `AddTransaction.IsUpdate` | app/src/main/java/com/example/expensemanager/feature/addtransaction/AddTransactionViewModel.kt:171 | `transactionId != null && transactionId > 0`; `SaveEditRewrites`, `SaveNewAppends` and `SaveOwnKey` prove what each branch writes |
| `AddTransaction.AfterSave` | app/src/main/java/com/example/expensemanager/feature/addtransaction/AddTransactionViewModel.kt:171-176 | the table after the save's write; `SaveEditRewrites`, `SaveNewAppends` and `SaveOwnKey` prove an edit rewrites its key only and a new row goes under a fresh key |
| `AddTransaction.SaveEditRewrites` | app/src/main/java/com/example/expensemanager/feature/addtransaction/AddTransactionViewModel.kt:171-173 | saving an edit rewrites the row under its key, when still stored, and no other row |
| `AddTransaction.SaveNewAppends` | app/src/main/java/com/example/expensemanager/feature/addtransaction/AddTransactionViewModel.kt:174-176 | saving a new transaction (key 0) appends it under the next key, which no stored row had |
| `AddTransaction.SaveOwnKey` | app/src/main/java/com/example/expensemanager/feature/addtransaction/AddTransactionViewModel.kt:162-176 | an insert with a non-zero key that is not an update (a negative one) stores the entity under that key, replacing any row with it |
| `AddTransaction.AddTransactionViewModel.constructor` | app/src/main/java/com/example/expensemanager/feature/addtransaction/AddTransactionViewModel.kt:193-204 | the default state, today's date, then the expense categories listed |
| `AddTransaction.AddTransactionViewModel.OnTransactionTypeChanged` | app/src/main/java/com/example/expensemanager/feature/addtransaction/AddTransactionViewModel.kt:50-53 | the type is set, the category cleared and that type's categories listed; nothing else changes |
| `AddTransaction.AddTransactionViewModel.OnCategorySelected` | app/src/main/java/com/example/expensemanager/feature/addtransaction/AddTransactionViewModel.kt:58-60 | only the selected category changes |
| `AddTransaction.AddTransactionViewModel.OnAmountChanged` | app/src/main/java/com/example/expensemanager/feature/addtransaction/AddTransactionViewModel.kt:65-83 | only the amount and its display change, as the amount entry gives them |
| `AddTransaction.AddTransactionViewModel.OnNoteChanged` | app/src/main/java/com/example/expensemanager/feature/addtransaction/AddTransactionViewModel.kt:88-90 | only the note changes |
| `AddTransaction.AddTransactionViewModel.OnDateChanged` | app/src/main/java/com/example/expensemanager/feature/addtransaction/AddTransactionViewModel.kt:95-97 | only the date changes |
| `AddTransaction.AddTransactionViewModel.LoadTransaction` | app/src/main/java/com/example/expensemanager/feature/addtransaction/AddTransactionViewModel.kt:102-140 | a found row fills the editor with its fields, grouped amount, category by key and that type's categories; a missing one changes nothing but leaves loading set; an exception sets "Không thể load giao dịch: " and its message |
| `AddTransaction.AddTransactionViewModel.Fill` | app/src/main/java/com/example/expensemanager/feature/addtransaction/AddTransactionViewModel.kt:121-132 | the successful load's copy of the row's fields into the editor |
| `AddTransaction.AddTransactionViewModel.SaveTransaction` | app/src/main/java/com/example/expensemanager/feature/addtransaction/AddTransactionViewModel.kt:145-187 | a failed check sets its error and writes nothing; otherwise the entity from the state is written with `update` when the key is positive and with `insert` otherwise, success is reported and the error cleared; a throwing write sets its message or "Lỗi không xác định" |
| `CategoryManagement.Palettes` | app/src/main/java/com/example/expensemanager/feature/categorymanagement/CategoryManagementViewModel.kt:244-259 | 32 icons and 14 colours, none listed twice, the dialog's default icon and colour among them |
| `CategoryManagement.CountIsFilter` | app/src/main/java/com/example/expensemanager/feature/categorymanagement/CategoryManagementViewModel.kt:53-54 | a tab count is the number of categories of that type |
| `CategoryManagement.CountsIgnoreOrder` | app/src/main/java/com/example/expensemanager/feature/categorymanagement/CategoryManagementViewModel.kt:52-54 | the counts depend only on which rows there are, not on their order |
| `CategoryManagement.TabCounts` | app/src/main/java/com/example/expensemanager/feature/categorymanagement/CategoryManagementViewModel.kt:52-54 | the counts over the listed categories are the counts over the stored rows, and together they count every row |
| `CategoryManagement.Edited` | app/src/main/java/com/example/expensemanager/feature/categorymanagement/CategoryManagementViewModel.kt:159-163 | the edited category has the trimmed name and the dialog's icon and colour, and keeps its key, type and default flag |
| `CategoryManagement.Created` | app/src/main/java/com/example/expensemanager/feature/categorymanagement/CategoryManagementViewModel.kt:167-173 | a new category has key 0 for the store to fill, the trimmed name, the tab's type, the dialog's icon and colour, and is not a default one |
| `CategoryManagement.SavedNameNotBlank` | app/src/main/java/com/example/expensemanager/feature/categorymanagement/CategoryManagementViewModel.kt:151-168 | a name that passes the blank check stays non-empty after trimming |
| `CategoryManagement.EditKeepsIdentity` | app/src/main/java/com/example/expensemanager/feature/categorymanagement/CategoryManagementViewModel.kt:157-164 | saving an edit finds the rewritten row under the same key with the same type and default flag |
| `CategoryManagement.CreateAppends` | app/src/main/java/com/example/expensemanager/feature/categorymanagement/CategoryManagementViewModel.kt:165-174 | saving a new category stores a non-default row under a key no row had |
| `CategoryManagement.DeleteSparesDefaults` | app/src/main/java/com/example/expensemanager/feature/categorymanagement/CategoryManagementViewModel.kt:190-207 | a delete removes exactly the key of a non-default category and no other; every default row survives |
| `CategoryManagement.CategoryManagementViewModel.constructor` | app/src/main/java/com/example/expensemanager/feature/categorymanagement/CategoryManagementViewModel.kt:26-45 | the expense tab's categories are listed, loading cleared, both tab counts set, and the dialog in its reset state |
| `CategoryManagement.CategoryManagementViewModel.OnTabChanged` | app/src/main/java/com/example/expensemanager/feature/categorymanagement/CategoryManagementViewModel.kt:68-74 | the tab changes and lists its categories; counts and dialog are untouched |
| `CategoryManagement.CategoryManagementViewModel.ObserveCategoryCounts` | app/src/main/java/com/example/expensemanager/feature/categorymanagement/CategoryManagementViewModel.kt:50-63 | the tab counts become the counts of the stored categories and add up to their number; nothing else changes |
| `CategoryManagement.CategoryManagementViewModel.PrepareForNewCategory` | app/src/main/java/com/example/expensemanager/feature/categorymanagement/CategoryManagementViewModel.kt:79-88 | nothing being edited, an empty name, and the icon and colour at the drawn positions of the palettes; as the palettes list nothing twice, the dialog's icon and colour identify the draws |
| `CategoryManagement.CategoryManagementViewModel.LoadCategoryForEdit` | app/src/main/java/com/example/expensemanager/feature/categorymanagement/CategoryManagementViewModel.kt:93-106 | a stored category fills the dialog and selects its type; a missing one changes nothing |
| `CategoryManagement.CategoryManagementViewModel.OnDialogDismiss` | app/src/main/java/com/example/expensemanager/feature/categorymanagement/CategoryManagementViewModel.kt:111-120 | the dialog is closed and reset to the default icon and colour, the error cleared |
| `CategoryManagement.CategoryManagementViewModel.OnDialogNameChanged` | app/src/main/java/com/example/expensemanager/feature/categorymanagement/CategoryManagementViewModel.kt:125-127 | only the dialog's name changes |
| `CategoryManagement.CategoryManagementViewModel.OnDialogIconChanged` | app/src/main/java/com/example/expensemanager/feature/categorymanagement/CategoryManagementViewModel.kt:132-134 | only the dialog's icon changes |
| `CategoryManagement.CategoryManagementViewModel.OnDialogColorChanged` | app/src/main/java/com/example/expensemanager/feature/categorymanagement/CategoryManagementViewModel.kt:139-141 | only the dialog's colour changes |
| `CategoryManagement.CategoryManagementViewModel.OnErrorDismiss` | app/src/main/java/com/example/expensemanager/feature/categorymanagement/CategoryManagementViewModel.kt:212-214 | only the error is cleared |
| `CategoryManagement.CategoryManagementViewModel.OnSaveCategory` | app/src/main/java/com/example/expensemanager/feature/categorymanagement/CategoryManagementViewModel.kt:146-185 | a blank name sets "Vui lòng nhập tên danh mục" and writes nothing; otherwise the edited category is updated or a new one inserted and the dialog reset; a throwing write keeps the table and sets "Lỗi khi lưu danh mục: " and its message |
| `CategoryManagement.CategoryManagementViewModel.OnDeleteCategory` | app/src/main/java/com/example/expensemanager/feature/categorymanagement/CategoryManagementViewModel.kt:190-207 | a default category is refused with "Không thể xóa danh mục mặc định" and the table kept; any other is deleted by key; a throwing delete keeps the table and sets "Lỗi khi xóa danh mục: " and its message |
| `DailyReminder.TodayCount` | app/src/main/java/com/example/expensemanager/worker/DailyReminderWorker.kt:54 | the rows-today text; `TodayCountReadsBack` proves its number reads back as the count |
| `DailyReminder.YesterdaySpent` | app/src/main/java/com/example/expensemanager/worker/DailyReminderWorker.kt:48-49 | the spending text; `SpentReadsBack` proves its amount, dots removed, reads back as the expense |
| `DailyReminder.YesterdayExpense` | app/src/main/java/com/example/expensemanager/worker/DailyReminderWorker.kt:41-43 | yesterday's EXPENSE sum; `YesterdayExpenseIsDayTotal` proves it is the DAO's total for that day |
| `DailyReminder.Message` | app/src/main/java/com/example/expensemanager/worker/DailyReminderWorker.kt:46-55 | the reminder text; `MessageTellsCase` proves which of the three texts is chosen, `MessageIgnoresOrder` that row order does not matter |
| `DailyReminder.DoWork` | app/src/main/java/com/example/expensemanager/worker/DailyReminderWorker.kt:22-68 | the work retries exactly when a query throws or `minusDays(1)` leaves the supported dates; otherwise it succeeds with the message |
| `DailyReminder.RowsOn` | app/src/main/java/com/example/expensemanager/worker/DailyReminderWorker.kt:29-39 | the rows of one day are the stored rows with that date |
| `DailyReminder.OneDayRange` | app/src/main/java/com/example/expensemanager/worker/DailyReminderWorker.kt:29-39 | the one-day range [d, d] holds exactly the rows dated d |
| `DailyReminder.MessageIgnoresOrder` | app/src/main/java/com/example/expensemanager/worker/DailyReminderWorker.kt:41-55 | the message depends only on which rows the two days hold, not on their order |
| `DailyReminder.YesterdayExpenseIsDayTotal` | app/src/main/java/com/example/expensemanager/worker/DailyReminderWorker.kt:41-43 | yesterday's spending is the expense total the DAO's SUM query reports for that day |
| `DailyReminder.WorkReadsBothDays` | app/src/main/java/com/example/expensemanager/worker/DailyReminderWorker.kt:28-64 | with the reads completing, the work succeeds with the message built from today's rows and the previous day's rows |
| `DailyReminder.MessageTellsCase` | app/src/main/java/com/example/expensemanager/worker/DailyReminderWorker.kt:46-55 | the rows-today text is chosen exactly when there are rows today; the spending text exactly when there are none and yesterday's expense is positive; the not-yet text exactly otherwise |
| `DailyReminder.TodayCountReadsBack` | app/src/main/java/com/example/expensemanager/worker/DailyReminderWorker.kt:54 | the number in the rows-today text reads back as the number of today's rows |
| `DailyReminder.SpentReadsBack` | app/src/main/java/com/example/expensemanager/worker/DailyReminderWorker.kt:48-49 | the amount in the spending text, separator dots removed, reads back as yesterday's expense |
| `MonthPicker.Entry` | app/src/main/java/com/example/expensemanager/widget/MonthPicker.kt:99 | an entry exists exactly when `plusMonths` succeeds; it is a valid first of the month, offset months from the current one |
| `MonthPicker.Collect` | app/src/main/java/com/example/expensemanager/widget/MonthPicker.kt:98-100 | the list exists exactly when every entry does, and then holds each offset's entry in order |
| `MonthPicker.MonthOptions` | app/src/main/java/com/example/expensemanager/widget/MonthPicker.kt:95-101 | the 241 months list; `OptionsExist` and `OptionsShape` prove when it exists and that it holds the consecutive firsts of month around the current one |
| `MonthPicker.OptionsExist` | app/src/main/java/com/example/expensemanager/widget/MonthPicker.kt:95-101 | the 241-month list exists exactly when its two ends do, in particular whenever the current year is ten years inside the supported range |
| `MonthPicker.OptionsShape` | app/src/main/java/com/example/expensemanager/widget/MonthPicker.kt:95-101 | 241 entries, each the first of a month; consecutive entries are consecutive months in ascending order; the middle entry is the first of the current month |
| `Text.NatToDigitsValue` | app/src/main/java/com/example/expensemanager/worker/DailyReminderWorker.kt:54 | the decimal text of a count reads back as the count |
| `Text.FixedDigitsValue` | app/src/main/java/com/example/expensemanager/data/Converters.kt:16-19 | a zero-padded field reads back as its number |
| `Text.NatToDigitsLength` | app/src/main/java/com/example/expensemanager/data/Converters.kt:16-19 | a number's decimal text fits in w digits exactly when it is below 10^w |
| `Text.PadDigitsValue` | app/src/main/java/com/example/expensemanager/data/Converters.kt:16-19 | a padded field reads back as its number |
| `Text.IsWhitespace` | app/src/main/java/com/example/expensemanager/feature/categorymanagement/CategoryManagementViewModel.kt:160 | Kotlin's `isWhitespace`: the control characters TAB..CR and FS..US and the Unicode space separators; `Trim` and `QueryMatching` rely on it |
| `Text.IsBlank` | app/src/main/java/com/example/expensemanager/feature/search/SearchViewModel.kt:107 | `isBlank()`: every character is whitespace; `QueryMatching` and `LowerIdempotent` use it |
| `Text.SkipBlanks` | app/src/main/java/com/example/expensemanager/feature/categorymanagement/CategoryManagementViewModel.kt:160 | the scan stops at the first character that is not whitespace |
| `Text.SkipBlanksBack` | app/src/main/java/com/example/expensemanager/feature/categorymanagement/CategoryManagementViewModel.kt:160 | the backward scan stops after the last character that is not whitespace |
| `Text.Trim` | app/src/main/java/com/example/expensemanager/feature/categorymanagement/CategoryManagementViewModel.kt:151-168 | `trim()` cuts only whitespace from either end, leaves no whitespace at either end, and gives an empty text exactly for a blank one |
| `Text.LowerChar` | app/src/main/java/com/example/expensemanager/feature/search/SearchViewModel.kt:110-112 | upper-case ASCII letters move to lower case; lower-case letters, digits and whitespace stay; U+0130 'İ', which `lowercase()` turns into two characters, is kept |
| `Text.Lower` | app/src/main/java/com/example/expensemanager/feature/search/SearchViewModel.kt:110-112 | `lowercase()` maps each character and keeps the length; that holds for every character the model lowers, not for U+0130 (see "## Left out") |
| `Text.LexIrreflexive` | app/src/main/java/com/example/expensemanager/data/dao/TransactionDao.kt:36-45 | SQLite's text order never puts a text before itself |
| `Text.LexTransitive` | app/src/main/java/com/example/expensemanager/data/dao/TransactionDao.kt:36-45 | SQLite's text order is transitive |
| `Text.LexTotal` | app/src/main/java/com/example/expensemanager/data/dao/TransactionDao.kt:36-45 | any two different texts are ordered one way or the other |
| `Text.LexAsymmetric` | app/src/main/java/com/example/expensemanager/data/dao/TransactionDao.kt:36-45 | no two texts are each before the other |
| `Text.LexAppend` | app/src/main/java/com/example/expensemanager/data/dao/TransactionDao.kt:42-47 | texts with heads of equal length compare by the heads first, then the rest |
| `Text.FixedDigitsOrder` | app/src/main/java/com/example/expensemanager/data/dao/TransactionDao.kt:42-47 | zero-padded fields of one width sort as the numbers they stand for |
| `Text.FormatGrouped` | app/src/main/java/com/example/expensemanager/feature/addtransaction/AddTransactionViewModel.kt:77-80 | the vi-VN display of a whole number: with its dots dropped it reads back as the number, after a '-' for a negative one |
| `Text.GroupThousands` | app/src/main/java/com/example/expensemanager/feature/addtransaction/AddTransactionViewModel.kt:77-80 | the vi-VN grouping of a whole number is never empty |
| `Text.RemoveDotsAppend` | app/src/main/java/com/example/expensemanager/feature/addtransaction/AddTransactionViewModel.kt:67 | dropping separator dots distributes over concatenation |
| `Text.RemoveDotsOfDigits` | app/src/main/java/com/example/expensemanager/feature/addtransaction/AddTransactionViewModel.kt:67 | a text of digits has no dots to drop |
| `Text.DigitsValueAppend` | app/src/main/java/com/example/expensemanager/feature/addtransaction/AddTransactionViewModel.kt:74 | the value of concatenated digit texts is the first shifted by the length of the second, plus the second |
| `Text.GroupThousandsDenotes` | app/src/main/java/com/example/expensemanager/feature/addtransaction/AddTransactionViewModel.kt:77-82 | the grouped display, separator dots dropped, reads back as the number |
| `Seqs.Filter` | app/src/main/java/com/example/expensemanager/feature/report/ReportViewModel.kt:80 | `filter` keeps exactly the elements that pass, and only those |
| `Seqs.MapSeq` | app/src/main/java/com/example/expensemanager/feature/search/SearchViewModel.kt:57 | `map` keeps the length and maps element by element |
| `Seqs.SumByPermutation` | app/src/main/java/com/example/expensemanager/feature/transactiondetail/TransactionDetailViewMode.kt:77-78 | `sumOf` does not depend on the order of the elements |
| `Seqs.FilterMultiset` | app/src/main/java/com/example/expensemanager/feature/report/ReportViewModel.kt:80 | a filter keeps every passing element as often as it occurs, and no other |
| `Seqs.AssociateBy` | app/src/main/java/com/example/expensemanager/feature/report/ReportViewModel.kt:83 | `associateBy { it.id }` has exactly the keys some element carries |
| `Seqs.AssociateByLastWins` | app/src/main/java/com/example/expensemanager/feature/report/ReportViewModel.kt:83 | on a repeated key the map holds the last element with that key |
| `Seqs.AssociateByDistinct` | app/src/main/java/com/example/expensemanager/feature/report/ReportViewModel.kt:83 | with distinct keys every element is found under its own key |
| `Sorting.InsertBy` | app/src/main/java/com/example/expensemanager/feature/report/ReportViewModel.kt:111 | one insertion step adds exactly one element |
| `Sorting.SortBy` | app/src/main/java/com/example/expensemanager/feature/report/ReportViewModel.kt:111 | `sortedBy`/`sortedByDescending` only reorder: the result is a permutation of the input |
| `Sorting.InsertKeepsSorted` | app/src/main/java/com/example/expensemanager/feature/report/ReportViewModel.kt:111 | inserting into a sorted list keeps it sorted |
| `Sorting.SortIsSorted` | app/src/main/java/com/example/expensemanager/feature/report/ReportViewModel.kt:111 | under a strict order the sorted list has no element before a smaller earlier one |
| `Sorting.SortedDistinctIsStrict` | app/src/main/java/com/example/expensemanager/feature/report/CategoryReportDetailViewModel.kt:62 | a sorted list without repetitions over a total order strictly ascends |
| `Sorting.SortKeepsDistinct` | app/src/main/java/com/example/expensemanager/feature/report/CategoryReportDetailViewModel.kt:62 | sorting keeps a list free of repetitions and keeps its values |
| `Sorting.InsertLast` | app/src/main/java/com/example/expensemanager/feature/home/HomeScreen.kt:510 | an element below none of the list goes to the end |
| `Sorting.SortSortedUnchanged` | app/src/main/java/com/example/expensemanager/feature/home/HomeScreen.kt:510 | the stable sort leaves a sorted list as it is |
| `Grouping.DistinctKeys` | app/src/main/java/com/example/expensemanager/feature/report/ReportViewModel.kt:84 | `groupBy`'s keys: each key some element carries, once; `DistinctKeysInOrder` proves their order of first appearance |
| `Grouping.FirstIndex` | app/src/main/java/com/example/expensemanager/feature/report/ReportViewModel.kt:84 | the position of the first element carrying a key, or the length when none does |
| `Grouping.DistinctKeysInOrder` | app/src/main/java/com/example/expensemanager/feature/report/ReportViewModel.kt:84 | the keys are listed in the order in which they first appear, as `groupBy`'s `LinkedHashMap` keeps them |
| `Grouping.ItemsWithKey` | app/src/main/java/com/example/expensemanager/feature/report/ReportViewModel.kt:84 | a group holds only elements carrying its key |
| `Grouping.ItemsWithKeyMembers` | app/src/main/java/com/example/expensemanager/feature/report/ReportViewModel.kt:84 | a group holds exactly the elements carrying its key |
| `Grouping.BuildGroups` | app/src/main/java/com/example/expensemanager/feature/report/ReportViewModel.kt:84 | one group per listed key, in the listed order, with that key's elements |
| `Grouping.GroupsPartition` | app/src/main/java/com/example/expensemanager/feature/report/ReportViewModel.kt:84 | the groups together hold every element exactly as often as the input |
| `Grouping.GroupTotalsSum` | app/src/main/java/com/example/expensemanager/feature/report/ReportViewModel.kt:87-92 | per-group sums add up to the sum over the input |
| `Grouping.SortedGroupsStrict` | app/src/main/java/com/example/expensemanager/feature/report/CategoryReportDetailViewModel.kt:61-62 | `toSortedMap`'s keys come strictly in the comparator's order |
| `Grouping.GroupsNonEmpty` | app/src/main/java/com/example/expensemanager/feature/report/ReportViewModel.kt:84 | over exactly the input's keys no group is empty |
| `Grouping.GroupsPlaceEachElement` | app/src/main/java/com/example/expensemanager/feature/report/ReportViewModel.kt:84 | each element sits in the group of its key, and every group element comes from the input |
| `Grouping.SortGroupsByKey` | app/src/main/java/com/example/expensemanager/feature/search/SearchViewModel.kt:67-71 | sorting the groups by key is grouping over the sorted keys |
| `Grouping.GroupByThenSort` | app/src/main/java/com/example/expensemanager/feature/search/SearchViewModel.kt:67-71 | `groupBy` followed by sorting the groups by date is `toSortedMap` on the dates |
| `Dates.LengthOfYearMonth` | app/src/main/java/com/example/expensemanager/data/repository/TransactionRepository.kt:30 | a month has 28 to 31 days |
| `Dates.FirstOfYear` | app/src/main/java/com/example/expensemanager/feature/report/ReportViewModel.kt:44 | `LocalDate.of(year, 1, 1)` is the valid date 1 January of that year, for every year `LocalDate` holds |

## Left out

- Concurrency and Flow plumbing: `viewModelScope.launch`, `combine`, `collect` and re-emission are not modelled. Each load is one sequential step over the current rows. Other effects of it:
  - the intermediate `isLoading = true` state is set and cleared inside one method, so no caller sees it;
  - overlapping loads do not race;
  - a re-emission after a table change is a new call, as `CategoryManagement.CategoryManagementViewModel.ObserveCategoryCounts` is;
  - the collector of an earlier tab keeps running after `onTabChanged`, and that is not modelled.
- AppDatabase.Database.constructor: the source seeds the categories in a `CoroutineScope(Dispatchers.IO).launch` started from `onCreate`, and only when `INSTANCE` is already set (AppDatabase.kt:56-62), so a query right after creation can see an empty categories table, and an `insertAll` that fails is lost. The model takes the seeding as done when creation returns.
- Side effects outside the app's data are left out: Compose rendering and the formatting of amounts for display (`formatCurrency`), the notification itself and its title, the Room engine, the `getDatabase` singleton, DataStore preferences and the content provider.
- Report.StatIsItsCategory: a percentage is the exact quotient times 100, as a real. This is weaker than the source, which uses a `Float` and rounds the text to one decimal (`String.format("%.1f")`); floating point is outside the model. `String.format("%.1f", …)` also uses the default locale: under a comma-decimal locale such as vi-VN it writes "70,0", `toFloat()` then throws `NumberFormatException` and the catch sets the error, while the model's load succeeds.
- Report.ReportViewModel.OnYearChanged: requires a year `LocalDate.of` accepts. The source calls it outside any `try`, so an out-of-range year crashes the app, and a crash is not a state the model has.
- Amounts and sums are unbounded integers. `sumOf` and SQLite `SUM` overflow at 64 bits, and that is not modelled. The exception is the amount entry, where `toLongOrNull` falls back to 0 past `Long.MAX_VALUE`; that case is modelled.
- AddTransaction.AmountEntryMeaning: `isDigit` and `toLongOrNull` accept only the ASCII digits '0'..'9'. Kotlin also accepts other Unicode decimal digits.
- Search.QueryMatching: `lowercase()` covers only the Latin letters the app's texts use: ASCII, Latin-1, Latin Extended-A except U+0130, the horned O and U, and the Vietnamese letters. Other scripts are left as they are.
- Text.Lower: U+0130 'İ' is kept as it is. Kotlin's `lowercase()` (`toLowerCase(Locale.ROOT)`) turns it into the two characters 'i' and U+0307, so for a text holding it the source's result is one character longer than the model's and `ensures |r| == |s|` does not match the source.
- The dates of the lemmas: the SQL range queries compare the stored ISO texts. Several lemmas (`TransactionDao.InRangeIsChronological`, `Report.YearPeriod`, `DailyReminder.OneDayRange` and others) require the four-digit years 0..9999, for which text order is calendar order. Outside that range the model computes what SQLite would but states no calendar meaning.
- DailyReminder.DoWork: one `Outcome` stands for both day queries. When either throws, the work retries.
- MonthPicker.Collect: when any `plusMonths` throws, the whole list is absent. The source would throw from `generateMonthOptions` at that point.
- CategoryManagement.CategoryManagementViewModel.LoadCategoryForEdit: the store read is taken not to throw. The source has no `try` there, so an exception would crash the app.
- CategoryManagement.CategoryManagementViewModel.PrepareForNewCategory: `random()` is the given index into each palette.
- Entities.ParseColor: hex digits and colour names are read in ASCII only. Java's `Character.digit` also accepts other Unicode digits and the full-width Latin letters, and `toLowerCase(Locale.ROOT)` folds letters outside ASCII. A '#' text longer than nine characters fails whatever it holds, so `Long` overflow never arises.
- CategoryReportDetail.PatternParse: indices and the 64-character cut of the quoted text count characters of the Dafny string. Java counts UTF-16 code units, so they differ for texts with characters outside the Basic Multilingual Plane. Digits are ASCII only, as in the other parsers.
- AddTransaction.AddTransactionViewModel.LoadTransaction follows the source as written:
  - when the id is not found, `isLoading` stays true;
  - a save of an edit writes the clock's `now` as `createdAt`, because the entity is rebuilt with its default.
- `HomeScreen.kt` contributes only the arithmetic of `DailyStatsTable`. The rest of the screen is layout.
