/** Client code of the store, written against the contracts of `ExpenseManager` alone. */
module Scenarios {
  import opened Wrappers
  import opened Records
  import opened Dates
  import opened Ledger
  import opened Store

  /** Saving and then opening a new store over the same file gives back the same lists, in the
      same order, and the same counter. */
  method SaveAndReopen(m: ExpenseManager) returns (ok: bool, reopened: ExpenseManager)
    modifies m
    ensures m.Current() == old(m.Current())
    ensures ok ==> reopened.Current() == m.Current() && reopened.disk == m.disk
  {
    ok := m.SaveData();
    reopened := new ExpenseManager(m.disk);
  }

  /** A store opened with no data file: the nine defaults in order, no expenses, nothing spent. */
  method FreshStore() returns (names: seq<string>, expenses: seq<Expense>, total: real)
    ensures names == ["Food", "Housing", "Transportation", "Utilities", "Entertainment",
                      "Health", "Personal", "Education", "Miscellaneous"]
    ensures expenses == [] && total == 0.0
  {
    var m := new ExpenseManager(Absent);
    var categories := m.GetAllCategories();
    names := seq(|categories|, i requires 0 <= i < |categories| => categories[i].name);
    expenses := m.GetAllExpenses();
    total := m.GetTotalExpenses(2024, 1);
  }

  /** Two identical lunches added to a fresh store get ids 1 and 2, and the March 2024 filter
      returns the first one as it was stamped. */
  method TwoLunches() returns (march: seq<Expense>, ids: seq<int>)
    ensures march == [Expense(1, 12.5, "Lunch", "Food", "2024-03-15")]
    ensures ids == [1, 2]
  {
    var m := new ExpenseManager(Absent);
    var lunch := Expense(0, 12.5, "Lunch", "Food", "2024-03-15");
    var _ := m.AddExpense(lunch);
    YearMonthOfFormatDate(2024, 3, 15);
    assert FormatDate(2024, 3, 15) == "2024-03-15";
    march := m.GetExpensesByMonth(2024, 3);
    var _ := m.AddExpense(lunch);
    ids := [m.expenses[0].id, m.expenses[1].id];
  }

  /** A category that an expense uses cannot be deleted, and stays listed. */
  method DeleteUsedCategory() returns (deleted: bool, names: set<string>)
    ensures !deleted && "Food" in names
  {
    var m := new ExpenseManager(Absent);
    var _ := m.AddExpense(Expense(0, 12.5, "Lunch", "Food", "2024-03-15"));
    assert CategoryInUse(m.expenses, "Food") by {
      assert m.expenses[0] in m.expenses;
    }
    deleted := m.DeleteCategory("Food");
    assert m.categories[0].name == "Food";
    names := CategoryNames(m.categories);
  }

  /** Adding a category whose name is already listed is refused, so the name stays listed once. */
  method AddTwice() returns (first: bool, second: bool, categories: seq<Category>)
    ensures !second
    ensures "Gifts" in CategoryNames(categories) && NamesDistinct(categories)
  {
    var m := new ExpenseManager(Absent);
    DefaultCategoriesNamed();
    var gifts := Category("Gifts", "Presents for others");
    first := m.AddCategory(gifts);
    second := m.AddCategory(gifts);
    categories := m.GetAllCategories();
  }

  /** Renaming a category checks neither the new name nor the expenses: renaming "Food" to the
      existing name "Housing" lists "Housing" twice and leaves the lunch filed under "Food",
      a name no category has any more. */
  method RenameLeavesOrphans() returns (names: seq<string>, lunchCategory: string)
    ensures |names| == 9 && names[0] == names[1] == "Housing"
    ensures lunchCategory == "Food" && lunchCategory !in names
  {
    var m := new ExpenseManager(Absent);
    var _ := m.AddExpense(Expense(0, 12.5, "Lunch", "Food", "2024-03-15"));
    var _ := m.UpdateCategory("Food", Category("Housing", "Rent, mortgage, repairs"));
    var categories := m.GetAllCategories();
    names := seq(|categories|, i requires 0 <= i < |categories| => categories[i].name);
    lunchCategory := m.expenses[0].category;
  }
}
