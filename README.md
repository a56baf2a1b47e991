# Ledger store of a personal-finance tracker, in Dafny

This project models `ExpenseManager`, the in-memory record store of a desktop expense tracker.
The store holds three things:

- an ordered list of expenses, each with an id, an amount, a description, a category name and a `YYYY-MM-DD` date;
- an ordered list of categories, each a name and a description;
- a counter that supplies the next expense id.

It offers create, update and delete operations on both lists. It filters expenses by month and by category. It builds a per-category summary and a total for a month. After every change it rewrites its data file in full.

Files:

- `records.dfy` — `Wrappers.Option`, and the records `Expense`, `Category`, `Snapshot` (the persisted state) and `Document` (what the data file holds).
- `dates.dfy` — module `Dates`: reading the year and month out of a date text.
- `ledger.dfy` — module `Ledger`: pure definitions that specify the store, and lemmas about them. It has the first-match lookups, both filters, sums, the category summary, the id invariant `IdsFresh` and the nine default categories.
- `expense_manager.dfy` — module `Store`: the class `ExpenseManager`. Its fields `expenses`, `categories` and `nextExpenseId` are updated in place, and a fourth field `disk` models the data file. Every method states the whole new state. The read-only queries are loops, each proved equal to its specification function.
- `scenarios.dfy` — module `Scenarios`: client code checked against the class contracts alone. It covers the save-and-reopen round trip and the documented usage scenarios.

How persistence is modelled. The data file is a `Document` value: `Absent`, `Unreadable`, `Malformed` or `Stored(snapshot)`.

- `SaveData` fails or succeeds nondeterministically. On success the file holds exactly the in-memory state. A failure before the file is opened leaves the file as it was. A failure while writing leaves it `Malformed`, because the file was truncated when it was opened.
- Every mutator makes its in-memory change first and only then saves. So the change stays in memory even when the save fails.
- `LoadData` on `Stored(s)` replaces all three fields by those of `s`. On a file it cannot open it changes nothing. On a file that does not parse it appends the default categories.

The invariant `Valid()` says two things, for the in-memory list and for any stored snapshot: ids rise strictly in storage order, and every id lies below the counter. The rise in order gives distinctness (`Ledger.FreshIdsAreUnique`). A store opened with no data file satisfies `Valid()`. Every method preserves it.

Two behaviours of the code worth knowing:

- Loading distinguishes two failures. A file that cannot be opened returns false and changes nothing. A file that does not parse has the nine defaults appended to the categories already present.
- The summary's values add up to the month total unconditionally, not only when every expense's category is a known one. An unknown category text becomes a key of its own, so every amount is still counted once.

## Model

| member | source | states |
|---|---|---|
| `Store.ExpenseManager.constructor` | src/core/ExpenseManager.cpp:9-24 | with no data file: the nine defaults in order, no expenses, counter 1, then a save; a file that cannot be opened leaves empty lists and counter 1; a malformed file leaves the defaults; a stored file is loaded as it is; the id invariant holds afterwards unless the stored file itself breaks it |
| `Store.ExpenseManager.InitializeDefaultCategories` | src/core/ExpenseManager.cpp:31-42 | appends the nine default categories after the existing ones |
| `Store.ExpenseManager.NextExpenseId` | src/core/ExpenseManager.cpp:44-47 | returns the counter's old value and advances it by exactly one |
| `Store.ExpenseManager.AddExpense` | src/core/ExpenseManager.cpp:49-55 | appends a copy stamped with the old counter value and leaves earlier records as they were; advances the counter by one; categories unchanged; all of this also when the save fails; preserves the id invariant |
| `Store.ExpenseManager.UpdateExpense` | src/core/ExpenseManager.cpp:57-69 | replaces the first record with that id by the replacement with the id forced back, same length and every other position unchanged; with no such id: false and nothing changed; counter unchanged; preserves the id invariant |
| `Store.ExpenseManager.DeleteExpense` | src/core/ExpenseManager.cpp:71-82 | removes only the first record with that id and keeps the order of the rest; with no such id: false and nothing changed; counter unchanged; preserves the id invariant |
| `Store.ExpenseManager.GetAllExpenses` | src/core/ExpenseManager.cpp:84-87 | returns the expense list as stored |
| `Store.ExpenseManager.GetExpensesByMonth` | src/core/ExpenseManager.cpp:89-104 | its scan returns exactly `ExpensesInMonth`: the stored expenses whose date is in that year and month, in storage order |
| `Store.ExpenseManager.GetExpensesByCategory` | src/core/ExpenseManager.cpp:106-117 | its scan returns exactly `ExpensesInCategory`: the stored expenses whose category text equals the argument, in storage order |
| `Store.ExpenseManager.AddCategory` | src/core/ExpenseManager.cpp:119-130 | appends only when no category has that name, otherwise false with nothing changed; either way the name is listed afterwards, and distinct names stay distinct |
| `Store.ExpenseManager.UpdateCategory` | src/core/ExpenseManager.cpp:132-143 | overwrites the first category with that name wholesale, new name included, without checking the new name; expenses untouched; with no such name: false and nothing changed |
| `Store.ExpenseManager.DeleteCategory` | src/core/ExpenseManager.cpp:145-162 | with no such name, or with an expense whose category equals the name: false with both lists unchanged; otherwise removes just the first category with that name; distinct names stay distinct and the name is then gone |
| `Store.ExpenseManager.GetAllCategories` | src/core/ExpenseManager.cpp:164-167 | returns the category list as stored |
| `Store.ExpenseManager.GenerateCategorySummary` | src/core/ExpenseManager.cpp:169-184 | seeding every category name at zero and adding each month expense into its category's entry yields exactly `CategorySummary` |
| `Store.ExpenseManager.GetTotalExpenses` | src/core/ExpenseManager.cpp:186-195 | the running total over the month's expenses is `MonthTotal`, the sum of their amounts |
| `Store.ExpenseManager.SaveData` | src/core/ExpenseManager.cpp:197-238 | success: the file holds the lists and the counter exactly; failure: the file is untouched, or truncated and no longer parseable (`Malformed`) |
| `Store.ExpenseManager.LoadData` | src/core/ExpenseManager.cpp:240-283 | a stored file replaces both lists and the counter and returns true; a file that cannot be opened changes nothing; a malformed one appends the defaults; the file itself is not changed |
| `Ledger.FirstIndex` | src/core/ExpenseManager.cpp:59-60 | the index of the first element the test accepts, or none exactly when no element passes; the store looks up expenses by id (`FindExpense`) and categories by name (`FindCategory`) through it, as each `std::find_if` does |
| `Ledger.ExpensesInMonth` | src/core/ExpenseManager.cpp:93-101 | contains exactly the stored expenses of that month, and is no longer than the list |
| `Ledger.ExpensesInCategory` | src/core/ExpenseManager.cpp:110-114 | contains exactly the stored expenses of that category, and is no longer than the list |
| `Ledger.ExpensesInMonthConcat` | src/core/ExpenseManager.cpp:89-104 | the month filter keeps storage order: filtering a concatenation concatenates the filtered parts |
| `Ledger.ExpensesInCategoryConcat` | src/core/ExpenseManager.cpp:106-117 | the category filter keeps storage order in the same way |
| `Ledger.SumConcat` | src/core/ExpenseManager.cpp:188-192 | the total of two runs of expenses is the sum of their totals |
| `Ledger.AddTo` | src/core/ExpenseManager.cpp:180 | `summary[k] += a` adds `k` to the keys, starting a missing entry at zero |
| `Ledger.SummarySeedStep` | src/core/ExpenseManager.cpp:174-176 | seeding one more category name sets its entry to zero and keeps the others |
| `Ledger.CategorySumSnoc` | src/core/ExpenseManager.cpp:179-181 | one more expense raises the total of its own category by its amount, and of no other category |
| `Ledger.SummaryAddStep` | src/core/ExpenseManager.cpp:179-181 | adding one expense into the summary gives the summary of the longer list |
| `Ledger.UnusedCategorySumsToZero` | src/core/ExpenseManager.cpp:173-181 | a category no expense uses totals zero |
| `Ledger.CategorySummaryShape` | src/core/ExpenseManager.cpp:169-184 | the summary's keys are every known category name plus the category of every expense of the month; a known category with no expense that month maps to zero |
| `Ledger.CategoryTotalsCoverSum` | src/core/ExpenseManager.cpp:179-192 | when the keys list every expense category once, the per-category totals add up to the total |
| `Ledger.SummaryAddsUpToMonthTotal` | src/core/ExpenseManager.cpp:169-195 | the summary's values, each key once, add up to the month total that `getTotalExpenses` returns |
| `Ledger.FreshIdsAreUnique` | src/core/ExpenseManager.cpp:44-55 | under the id invariant no two stored expenses share an id |
| `Ledger.DefaultCategoriesNamed` | src/core/ExpenseManager.cpp:31-42 | the defaults are Food, Housing, Transportation, Utilities, Entertainment, Health, Personal, Education, Miscellaneous, in that order, with distinct names |
| `Dates.YearMonth` | src/core/ExpenseManager.cpp:94-98 | a year in 0..9999 and a month in 1..12 exactly for well-formed `YYYY-MM-DD` text |
| `Dates.YearMonthOfFormatDate` | src/core/ExpenseManager.cpp:94-98 | reading back a formatted date yields its year and month |
| `Scenarios.SaveAndReopen` | src/core/ExpenseManager.cpp:197-283 | a successful save followed by opening a new store on the same file restores the same lists, in order, and the same counter |
| `Scenarios.FreshStore` | src/core/ExpenseManager.cpp:9-42 | a store opened with no file lists the nine defaults in order, has no expenses and totals zero for January 2024 |
| `Scenarios.TwoLunches` | src/core/ExpenseManager.cpp:49-104 | two identical adds get ids 1 and 2, and the March 2024 filter returns the first as stamped |
| `Scenarios.DeleteUsedCategory` | src/core/ExpenseManager.cpp:145-162 | deleting a category an expense uses fails, and the category stays listed |
| `Scenarios.AddTwice` | src/core/ExpenseManager.cpp:119-130 | adding the same category twice fails the second time and leaves the name listed once |
| `Scenarios.RenameLeavesOrphans` | src/core/ExpenseManager.cpp:132-143 | a rename can duplicate a name and leave an expense filed under a name no category has |

## Left out

- JSON encoding and decoding, the stream I/O and directory creation are not modelled. The data file is the `Document` value in the field `disk`. It is an ordinary field rather than a ghost one, because loading assigns the real fields from it. The data file path is not modelled.
- Store.ExpenseManager.SaveData: a stream write that fails after the file is opened goes unnoticed by the source, which still returns true with a damaged file. The model's success always means the file holds the state.
- Store.ExpenseManager.LoadData: a document that parses as JSON fails partway through loading when its `nextExpenseId` is missing or is neither a number nor a boolean, or when a list element holds a field that does not convert to its type. Lists already cleared and reloaded stay as they are, and then the defaults are appended. The model treats every failing document as failing before anything is cleared.
- A `nextExpenseId` or an element `id` that is a fractional number or a boolean does not fail: the conversion to `int` truncates `3.7` to 3 and reads `true` as 1, and loading returns true. A boolean `amount` likewise reads as 0 or 1. In the model such a file is a `Stored` document that holds the converted values.
- A document that lacks the top-level `expenses` or `categories` list is not a failure. The source reads the missing key as `null`, which iterates as an empty list, and loading returns true. In the model such a file is a `Stored` document whose list is empty.
- A document whose list element lacks a field is not modelled. The source reads that field through a const lookup, whose behaviour on a missing key is undefined rather than a caught exception.
- Dates.YearMonth: dates that are not well-formed `YYYY-MM-DD` text, with a month in 1..12 and a day in 1..31, match no month in the model. The source's `std::get_time` starts from a zeroed `tm` and may stop partway. So such text can match a partially parsed year and month, such as year 1900 and month 1.
- Amounts are exact reals. Floating-point rounding of `double` amounts and of their sums is not modelled.
- The counter is an unbounded integer. The source's 32-bit `int` overflow after 2^31 - 1 ids is not modelled.
- The destructor's final save is not modelled. It is lifecycle plumbing. Error messages written to the standard error stream are not modelled either.
- The presentation layer is not part of this model. That covers `src/ui/MainWindow.cpp`, `include/ui/MainWindow.h` and `src/main.cpp`. It only calls the operations above and renders their results.
