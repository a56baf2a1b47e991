/** The ledger store: the expense list, the category list and the id counter, updated in place,
    with the data file as one more field that saving writes and loading reads. */
module Store {
  import opened Wrappers
  import opened Records
  import opened Ledger

  class ExpenseManager {
    var expenses: seq<Expense>
    var categories: seq<Category>
    var nextExpenseId: int
    /** The content of the data file. Saving overwrites it as a whole; loading reads it. */
    var disk: Document

    /** The in-memory state, in the form a save persists it. */
    function Current(): Snapshot
      reads this
    {
      Snapshot(expenses, categories, nextExpenseId)
    }

    /** The id invariant holds in memory and in the saved document. */
    ghost predicate Valid()
      reads this
    {
      && IdsFresh(expenses, nextExpenseId)
      && (disk.Stored? ==> IdsFresh(disk.snapshot.expenses, disk.snapshot.nextExpenseId))
    }

    /** What a save reporting `ok` left on disk, `before` being the document it found:
        success means the document now holds the in-memory state; failure means it either could
        not be opened (and is untouched) or was truncated and no longer parses (`Malformed`). */
    ghost predicate SaveOutcome(ok: bool, before: Document)
      reads this
    {
      if ok then disk == Stored(Current()) else disk == before || disk == Malformed
    }

    /** Opening the store over the data file `doc`. With no file, the nine default categories
        are seeded and saved; otherwise the file is loaded. */
    constructor (doc: Document)
      ensures doc.Absent? ==>
        && expenses == [] && categories == DefaultCategories() && nextExpenseId == 1
        && (disk == Stored(Current()) || disk == Absent || disk == Malformed)
      ensures doc.Unreadable? ==>
        expenses == [] && categories == [] && nextExpenseId == 1 && disk == doc
      ensures doc.Malformed? ==>
        expenses == [] && categories == DefaultCategories() && nextExpenseId == 1 && disk == doc
      ensures doc.Stored? ==> Current() == doc.snapshot && disk == doc
      ensures doc.Stored? ==> IdsFresh(doc.snapshot.expenses, doc.snapshot.nextExpenseId) ==> Valid()
      ensures !doc.Stored? ==> Valid()
    {
      expenses := [];
      categories := [];
      nextExpenseId := 1;
      disk := doc;
      new;
      if doc.Absent? {
        InitializeDefaultCategories();
        var _ := SaveData();
      } else {
        var _ := LoadData();
      }
    }

    /** Appends the nine default categories, in their fixed order. */
    method InitializeDefaultCategories()
      modifies this`categories
      ensures categories == old(categories) + DefaultCategories()
    {
      categories := categories + DefaultCategories();
    }

    /** Hands out the counter's value and advances the counter by one. */
    method NextExpenseId() returns (id: int)
      modifies this`nextExpenseId
      ensures id == old(nextExpenseId) && nextExpenseId == old(nextExpenseId) + 1
    {
      id := nextExpenseId;
      nextExpenseId := nextExpenseId + 1;
    }

    // ---------------------------------------------------------------------------------------------
    // Expenses

    /** Stamps a copy of `expense` with a fresh id and appends it. The in-memory change happens
        whether or not the save that follows succeeds; `ok` reports the save. */
    method AddExpense(expense: Expense) returns (ok: bool)
      modifies this
      ensures expenses == old(expenses) + [expense.(id := old(nextExpenseId))]
      ensures nextExpenseId == old(nextExpenseId) + 1
      ensures categories == old(categories)
      ensures SaveOutcome(ok, old(disk))
      ensures old(Valid()) ==> Valid()
    {
      var id := NextExpenseId();
      expenses := expenses + [expense.(id := id)];
      ok := SaveData();
    }

    /** Replaces the first expense with id `id` by `expense`, keeping the id `id`;
        fails with nothing changed when no expense has that id. */
    method UpdateExpense(id: int, expense: Expense) returns (ok: bool)
      modifies this
      ensures categories == old(categories) && nextExpenseId == old(nextExpenseId)
      ensures match FindExpense(old(expenses), id)
        case None => !ok && expenses == old(expenses) && disk == old(disk)
        case Some(i) => expenses == old(expenses)[i := expense.(id := id)] && SaveOutcome(ok, old(disk))
      ensures old(Valid()) ==> Valid()
    {
      match FindExpense(expenses, id)
      case None =>
        ok := false;
      case Some(i) =>
        expenses := expenses[i := expense.(id := id)];
        ok := SaveData();
    }

    /** Removes the first expense with id `id`, keeping the others in order;
        fails with nothing changed when no expense has that id. */
    method DeleteExpense(id: int) returns (ok: bool)
      modifies this
      ensures categories == old(categories) && nextExpenseId == old(nextExpenseId)
      ensures match FindExpense(old(expenses), id)
        case None => !ok && expenses == old(expenses) && disk == old(disk)
        case Some(i) => expenses == old(expenses)[..i] + old(expenses)[i + 1..] && SaveOutcome(ok, old(disk))
      ensures old(Valid()) ==> Valid()
    {
      match FindExpense(expenses, id)
      case None =>
        ok := false;
      case Some(i) =>
        expenses := expenses[..i] + expenses[i + 1..];
        ok := SaveData();
    }

    method GetAllExpenses() returns (result: seq<Expense>)
      ensures result == expenses
    {
      result := expenses;
    }

    /** The stored expenses dated in `year`/`month`, in storage order. */
    method GetExpensesByMonth(year: int, month: int) returns (result: seq<Expense>)
      ensures result == ExpensesInMonth(expenses, year, month)
    {
      result := [];
      for i := 0 to |expenses|
        invariant result == ExpensesInMonth(expenses[..i], year, month)
      {
        var expense := expenses[i];
        assert expenses[..i + 1][..i] == expenses[..i];
        if InMonth(expense, year, month) {
          result := result + [expense];
        }
      }
      assert expenses[..|expenses|] == expenses;
    }

    /** The stored expenses whose category is exactly `category`, in storage order. */
    method GetExpensesByCategory(category: string) returns (result: seq<Expense>)
      ensures result == ExpensesInCategory(expenses, category)
    {
      result := [];
      for i := 0 to |expenses|
        invariant result == ExpensesInCategory(expenses[..i], category)
      {
        var expense := expenses[i];
        assert expenses[..i + 1][..i] == expenses[..i];
        if expense.category == category {
          result := result + [expense];
        }
      }
      assert expenses[..|expenses|] == expenses;
    }

    // ---------------------------------------------------------------------------------------------
    // Categories

    /** Appends `category` unless a category of the same name exists, in which case it fails
        with nothing changed. Either way a category of that name exists afterwards, and no
        duplicate name is created. */
    method AddCategory(category: Category) returns (ok: bool)
      modifies this
      ensures expenses == old(expenses) && nextExpenseId == old(nextExpenseId)
      ensures FindCategory(old(categories), category.name).None? ==>
        categories == old(categories) + [category] && SaveOutcome(ok, old(disk))
      ensures FindCategory(old(categories), category.name).Some? ==>
        !ok && categories == old(categories) && disk == old(disk)
      ensures category.name in CategoryNames(categories)
      ensures old(NamesDistinct(categories)) ==> NamesDistinct(categories)
      ensures old(Valid()) ==> Valid()
    {
      if FindCategory(categories, category.name).None? {
        categories := categories + [category];
        ok := SaveData();
      } else {
        ok := false;
      }
    }

    /** Overwrites the first category named `name` with `category`, name included; fails with
        nothing changed when there is none. The new name is not checked against the other
        categories, and expenses keep the category text they had. */
    method UpdateCategory(name: string, category: Category) returns (ok: bool)
      modifies this
      ensures expenses == old(expenses) && nextExpenseId == old(nextExpenseId)
      ensures match FindCategory(old(categories), name)
        case None => !ok && categories == old(categories) && disk == old(disk)
        case Some(i) => categories == old(categories)[i := category] && SaveOutcome(ok, old(disk))
      ensures old(Valid()) ==> Valid()
    {
      match FindCategory(categories, name)
      case None =>
        ok := false;
      case Some(i) =>
        categories := categories[i := category];
        ok := SaveData();
    }

    /** Removes the first category named `name`, unless there is none or some expense still
        uses that name; in those cases it fails with nothing changed. */
    method DeleteCategory(name: string) returns (ok: bool)
      modifies this
      ensures expenses == old(expenses) && nextExpenseId == old(nextExpenseId)
      ensures match FindCategory(old(categories), name)
        case None => !ok && categories == old(categories) && disk == old(disk)
        case Some(i) =>
          if CategoryInUse(old(expenses), name) then
            !ok && categories == old(categories) && disk == old(disk)
          else
            categories == old(categories)[..i] + old(categories)[i + 1..] && SaveOutcome(ok, old(disk))
      ensures old(NamesDistinct(categories)) ==> NamesDistinct(categories)
      ensures old(NamesDistinct(categories)) && !CategoryInUse(expenses, name) ==>
        name !in CategoryNames(categories)
      ensures old(Valid()) ==> Valid()
    {
      match FindCategory(categories, name)
      case None =>
        ok := false;
      case Some(i) =>
        if CategoryInUse(expenses, name) {
          ok := false;
        } else {
          categories := categories[..i] + categories[i + 1..];
          ok := SaveData();
        }
    }

    method GetAllCategories() returns (result: seq<Category>)
      ensures result == categories
    {
      result := categories;
    }

    // ---------------------------------------------------------------------------------------------
    // Reporting

    /** Every category name seeded at zero, then each expense of the month added into the entry
        of its own category text. */
    method GenerateCategorySummary(year: int, month: int) returns (summary: map<string, real>)
      ensures summary == CategorySummary(categories, expenses, year, month)
    {
      summary := map[];
      SummaryOverNothing();
      assert CategoryNames(categories[..0]) == {};
      for i := 0 to |categories|
        invariant summary == SummaryOver(CategoryNames(categories[..i]), [])
      {
        CategoryNamesPrefix(categories, i);
        SummarySeedStep(CategoryNames(categories[..i]), categories[i].name);
        summary := summary[categories[i].name := 0.0];
      }
      assert categories[..|categories|] == categories;
      var inMonth := GetExpensesByMonth(year, month);
      for j := 0 to |inMonth|
        invariant summary == SummaryOver(CategoryNames(categories), inMonth[..j])
      {
        var expense := inMonth[j];
        assert inMonth[..j + 1] == inMonth[..j] + [expense];
        SummaryAddStep(CategoryNames(categories), inMonth[..j], expense);
        summary := AddTo(summary, expense.category, expense.amount);
      }
      assert inMonth[..|inMonth|] == inMonth;
    }

    /** The sum of the amounts of the month's expenses. */
    method GetTotalExpenses(year: int, month: int) returns (total: real)
      ensures total == MonthTotal(expenses, year, month)
    {
      var inMonth := GetExpensesByMonth(year, month);
      total := 0.0;
      for i := 0 to |inMonth|
        invariant total == Sum(inMonth[..i])
      {
        assert inMonth[..i + 1][..i] == inMonth[..i];
        total := total + inMonth[i].amount;
      }
      assert inMonth[..|inMonth|] == inMonth;
    }

    // ---------------------------------------------------------------------------------------------
    // Persistence

    /** Overwrites the data file with the in-memory state. Whether the file can be opened, and
        whether writing it throws, is up to the environment and chosen nondeterministically. */
    method SaveData() returns (ok: bool)
      modifies this`disk
      ensures SaveOutcome(ok, old(disk))
    {
      var isOpen: bool :| true;
      if !isOpen {
        return false;
      }
      var written: bool :| true;
      if !written {
        disk := Malformed;
        return false;
      }
      disk := Stored(Current());
      return true;
    }

    /** Replaces both lists and the counter from the data file. A file that cannot be opened
        changes nothing; one that does not parse has the default categories appended. */
    method LoadData() returns (ok: bool)
      modifies this
      ensures disk == old(disk)
      ensures ok <==> old(disk).Stored?
      ensures old(disk).Stored? ==> Current() == old(disk).snapshot
      ensures old(disk).Malformed? ==>
        && expenses == old(expenses) && nextExpenseId == old(nextExpenseId)
        && categories == old(categories) + DefaultCategories()
      ensures old(disk).Absent? || old(disk).Unreadable? ==> Current() == old(Current())
      ensures old(Valid()) ==> Valid()
    {
      match disk
      case Stored(s) =>
        expenses := s.expenses;
        categories := s.categories;
        nextExpenseId := s.nextExpenseId;
        ok := true;
      case Malformed =>
        InitializeDefaultCategories();
        ok := false;
      case _ =>
        ok := false;
    }
  }
}
