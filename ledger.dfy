/** Pure definitions that specify the ledger store: lookups by key, the two filters,
    sums of amounts, the per-category summary, and the invariants the store keeps. */
module Ledger {
  import opened Wrappers
  import opened Records
  import opened Dates

  // ---------------------------------------------------------------------------------------------
  // Lookups: the first record with a given key, as `std::find_if` finds it

  /** Index of the first element of `s` that `matches` accepts, if there is one. */
  function FirstIndex<T>(s: seq<T>, matches: T -> bool): (r: Option<nat>)
    ensures r.Some? ==> r.value < |s| && matches(s[r.value])
    ensures r.Some? ==> forall j :: 0 <= j < r.value ==> !matches(s[j])
    ensures r.None? <==> forall j :: 0 <= j < |s| ==> !matches(s[j])
  {
    if s == [] then None
    else if matches(s[0]) then Some(0)
    else match FirstIndex(s[1..], matches)
      case None => None
      case Some(i) => Some(i + 1)
  }

  /** Index of the first expense whose id is `id`, if there is one. */
  function FindExpense(es: seq<Expense>, id: int): Option<nat> {
    FirstIndex(es, (e: Expense) => e.id == id)
  }

  /** Index of the first category named `name`, if there is one. */
  function FindCategory(cs: seq<Category>, name: string): Option<nat> {
    FirstIndex(cs, (c: Category) => c.name == name)
  }

  /** True when some expense refers to `name` as its category. */
  predicate CategoryInUse(es: seq<Expense>, name: string) {
    exists e :: e in es && e.category == name
  }

  function CategoryNames(cs: seq<Category>): set<string> {
    set c | c in cs :: c.name
  }

  function ExpenseCategories(es: seq<Expense>): set<string> {
    set e | e in es :: e.category
  }

  // ---------------------------------------------------------------------------------------------
  // The two filters, defined from the last record backwards so that they follow a scan that
  // pushes matching records onto the end of a result

  /** The expense falls in the given calendar year and 1-based month. */
  predicate InMonth(e: Expense, year: int, month: int) {
    YearMonth(e.date) == Some((year, month))
  }

  /** The expenses dated in `year`/`month`, in storage order. */
  function ExpensesInMonth(es: seq<Expense>, year: int, month: int): (r: seq<Expense>)
    ensures |r| <= |es|
    ensures forall e :: e in r <==> e in es && InMonth(e, year, month)
  {
    if es == [] then []
    else
      var last := es[|es| - 1];
      ExpensesInMonth(es[..|es| - 1], year, month) + (if InMonth(last, year, month) then [last] else [])
  }

  /** The expenses whose category is exactly `category`, in storage order. */
  function ExpensesInCategory(es: seq<Expense>, category: string): (r: seq<Expense>)
    ensures |r| <= |es|
    ensures forall e :: e in r <==> e in es && e.category == category
  {
    if es == [] then []
    else
      var last := es[|es| - 1];
      ExpensesInCategory(es[..|es| - 1], category) + (if last.category == category then [last] else [])
  }

  /** Filtering by month keeps storage order: filtering a concatenation concatenates the filtered parts. */
  lemma {:induction false} ExpensesInMonthConcat(a: seq<Expense>, b: seq<Expense>, year: int, month: int)
    ensures ExpensesInMonth(a + b, year, month) == ExpensesInMonth(a, year, month) + ExpensesInMonth(b, year, month)
  {
    if b == [] {
      assert a + b == a;
    } else {
      var b' := b[..|b| - 1];
      assert (a + b)[..|a + b| - 1] == a + b';
      ExpensesInMonthConcat(a, b', year, month);
    }
  }

  /** Filtering by category keeps storage order in the same way. */
  lemma {:induction false} ExpensesInCategoryConcat(a: seq<Expense>, b: seq<Expense>, category: string)
    ensures ExpensesInCategory(a + b, category) == ExpensesInCategory(a, category) + ExpensesInCategory(b, category)
  {
    if b == [] {
      assert a + b == a;
    } else {
      var b' := b[..|b| - 1];
      assert (a + b)[..|a + b| - 1] == a + b';
      ExpensesInCategoryConcat(a, b', category);
    }
  }

  // ---------------------------------------------------------------------------------------------
  // Totals

  /** The sum of the amounts, added up in storage order. */
  function Sum(es: seq<Expense>): real {
    if es == [] then 0.0 else Sum(es[..|es| - 1]) + es[|es| - 1].amount
  }

  lemma {:induction false} SumConcat(a: seq<Expense>, b: seq<Expense>)
    ensures Sum(a + b) == Sum(a) + Sum(b)
  {
    if b == [] {
      assert a + b == a;
    } else {
      var b' := b[..|b| - 1];
      assert (a + b)[..|a + b| - 1] == a + b';
      SumConcat(a, b');
    }
  }

  /** The month total that `getTotalExpenses` reports. */
  function MonthTotal(es: seq<Expense>, year: int, month: int): real {
    Sum(ExpensesInMonth(es, year, month))
  }

  /** The per-category summary of a month: one key for every known category name and for the
      category of every expense of that month; each value is the sum of the amounts of that
      month's expenses in that category. */
  function CategorySummary(cs: seq<Category>, es: seq<Expense>, year: int, month: int): map<string, real> {
    SummaryOver(CategoryNames(cs), ExpensesInMonth(es, year, month))
  }

  /** The summary of the expenses `es` with the category names `names` seeded at zero. */
  function SummaryOver(names: set<string>, es: seq<Expense>): map<string, real> {
    map k | k in names + ExpenseCategories(es) :: Sum(ExpensesInCategory(es, k))
  }

  lemma SummaryOverNothing()
    ensures SummaryOver({}, []) == map[]
  {
  }

  lemma CategoryNamesPrefix(cs: seq<Category>, i: nat)
    requires i < |cs|
    ensures CategoryNames(cs[..i + 1]) == CategoryNames(cs[..i]) + {cs[i].name}
  {
    assert cs[..i + 1] == cs[..i] + [cs[i]];
  }

  /** Seeding one more category name at zero, before any expense is added in. */
  lemma SummarySeedStep(names: set<string>, name: string)
    ensures SummaryOver(names + {name}, []) == SummaryOver(names, [])[name := 0.0]
  {
  }

  /** `summary[category] += amount` on a `std::map`, where a missing key starts at zero. */
  function AddTo(summary: map<string, real>, category: string, amount: real): (r: map<string, real>)
    ensures r.Keys == summary.Keys + {category}
  {
    summary[category := (if category in summary then summary[category] else 0.0) + amount]
  }

  /** The category total of `es + [e]` for `k` grows by `e`'s amount exactly when `e` is in `k`. */
  lemma CategorySumSnoc(es: seq<Expense>, e: Expense, k: string)
    ensures Sum(ExpensesInCategory(es + [e], k))
         == Sum(ExpensesInCategory(es, k)) + (if e.category == k then e.amount else 0.0)
  {
    var es' := es + [e];
    assert es'[..|es'| - 1] == es;
    var picked := ExpensesInCategory(es, k);
    if e.category == k {
      assert ExpensesInCategory(es', k) == picked + [e];
      assert (picked + [e])[..|picked + [e]| - 1] == picked;
    } else {
      assert ExpensesInCategory(es', k) == picked;
    }
  }

  lemma ExpenseCategoriesSnoc(es: seq<Expense>, e: Expense)
    ensures ExpenseCategories(es + [e]) == ExpenseCategories(es) + {e.category}
  {
  }

  /** The keys of a summary are the known names and the expense categories, and each key's
      entry is the total of its category. */
  lemma SummaryOverAt(names: set<string>, es: seq<Expense>, k: string)
    ensures k in SummaryOver(names, es) <==> k in names || k in ExpenseCategories(es)
    ensures k in SummaryOver(names, es) ==> SummaryOver(names, es)[k] == Sum(ExpensesInCategory(es, k))
  {
  }

  /** The entry for one key `k` after adding `e` in. */
  lemma SummaryAddStepAt(names: set<string>, es: seq<Expense>, e: Expense, k: string)
    requires k in SummaryOver(names, es + [e])
    ensures k in AddTo(SummaryOver(names, es), e.category, e.amount)
    ensures SummaryOver(names, es + [e])[k] == AddTo(SummaryOver(names, es), e.category, e.amount)[k]
  {
    var before := SummaryOver(names, es);
    var total := Sum(ExpensesInCategory(es, k));
    SummaryOverAt(names, es, k);
    SummaryOverAt(names, es + [e], k);
    ExpenseCategoriesSnoc(es, e);
    CategorySumSnoc(es, e, k);
    if k !in before {
      UnusedCategorySumsToZero(es, k);
    }
    AddToAt(before, e.category, e.amount, k, total);
  }

  /** The entry of `AddTo` at `k`, given the entry `current` that `k` had (zero when absent). */
  lemma AddToAt(summary: map<string, real>, category: string, amount: real, k: string, current: real)
    requires k in summary ==> summary[k] == current
    requires k !in summary ==> current == 0.0
    ensures k in AddTo(summary, category, amount) <==> k in summary || k == category
    ensures k in AddTo(summary, category, amount) ==>
              AddTo(summary, category, amount)[k] == current + (if k == category then amount else 0.0)
  {
  }

  /** Adding one more expense in: its category's entry (zero when absent) grows by its amount,
      and every other entry stays as it was. */
  lemma SummaryAddStep(names: set<string>, es: seq<Expense>, e: Expense)
    ensures SummaryOver(names, es + [e]) == AddTo(SummaryOver(names, es), e.category, e.amount)
  {
    var after := SummaryOver(names, es + [e]);
    var expected := AddTo(SummaryOver(names, es), e.category, e.amount);
    assert after.Keys == expected.Keys by {
      ExpenseCategoriesSnoc(es, e);
    }
    forall k | k in after
      ensures after[k] == expected[k]
    {
      SummaryAddStepAt(names, es, e, k);
    }
    MapsAgree(after, expected);
  }

  lemma MapsAgree(a: map<string, real>, b: map<string, real>)
    requires a.Keys == b.Keys
    requires forall k :: k in a ==> a[k] == b[k]
    ensures a == b
  {
  }

  /** A category with no expenses contributes nothing. */
  lemma UnusedCategorySumsToZero(es: seq<Expense>, category: string)
    requires !CategoryInUse(es, category)
    ensures Sum(ExpensesInCategory(es, category)) == 0.0
  {
  }

  /** What the summary of a month holds: its keys are the known category names together with
      the categories used by that month's expenses; every known category that month's
      expenses do not use maps to zero. */
  lemma CategorySummaryShape(cs: seq<Category>, es: seq<Expense>, year: int, month: int)
    ensures CategorySummary(cs, es, year, month).Keys
         == CategoryNames(cs) + ExpenseCategories(ExpensesInMonth(es, year, month))
    ensures forall c :: c in cs && !CategoryInUse(ExpensesInMonth(es, year, month), c.name) ==>
              CategorySummary(cs, es, year, month)[c.name] == 0.0
    ensures forall e :: e in es && InMonth(e, year, month) ==> e.category in CategorySummary(cs, es, year, month)
  {
  }

  // ---------------------------------------------------------------------------------------------
  // The summary's values add up to the month total

  predicate Distinct(ks: seq<string>) {
    forall i, j :: 0 <= i < j < |ks| ==> ks[i] != ks[j]
  }

  /** The summary values at the keys `ks`, added up. */
  function SumOfValues(summary: map<string, real>, ks: seq<string>): real
    requires forall k :: k in ks ==> k in summary
  {
    if ks == [] then 0.0 else summary[ks[0]] + SumOfValues(summary, ks[1..])
  }

  /** The category totals of `es` for the categories `ks`, added up. */
  function CategoryTotals(ks: seq<string>, es: seq<Expense>): real {
    if ks == [] then 0.0 else Sum(ExpensesInCategory(es, ks[0])) + CategoryTotals(ks[1..], es)
  }

  /** Appending one expense adds its amount to exactly the one category it belongs to. */
  lemma {:induction false} CategoryTotalsSnoc(ks: seq<string>, es: seq<Expense>, e: Expense)
    requires Distinct(ks)
    ensures CategoryTotals(ks, es + [e]) == CategoryTotals(ks, es) + (if e.category in ks then e.amount else 0.0)
  {
    if ks != [] {
      CategorySumSnoc(es, e, ks[0]);
      assert e.category == ks[0] ==> e.category !in ks[1..];
      assert Distinct(ks[1..]);
      CategoryTotalsSnoc(ks[1..], es, e);
    }
  }

  /** When `ks` lists every category of `es` once, the category totals add up to the total. */
  lemma {:induction false} CategoryTotalsCoverSum(ks: seq<string>, es: seq<Expense>)
    requires Distinct(ks)
    requires forall e :: e in es ==> e.category in ks
    ensures CategoryTotals(ks, es) == Sum(es)
  {
    if es == [] {
      CategoryTotalsOfNothing(ks);
    } else {
      var es' := es[..|es| - 1];
      var e := es[|es| - 1];
      assert es' + [e] == es;
      assert forall x :: x in es' ==> x in es;
      CategoryTotalsCoverSum(ks, es');
      CategoryTotalsSnoc(ks, es', e);
    }
  }

  lemma {:induction false} CategoryTotalsOfNothing(ks: seq<string>)
    ensures CategoryTotals(ks, []) == 0.0
  {
    if ks != [] {
      CategoryTotalsOfNothing(ks[1..]);
    }
  }

  lemma {:induction false} SumOfValuesIsCategoryTotals(summary: map<string, real>, ks: seq<string>, es: seq<Expense>)
    requires forall k :: k in ks ==> k in summary && summary[k] == Sum(ExpensesInCategory(es, k))
    ensures SumOfValues(summary, ks) == CategoryTotals(ks, es)
  {
    if ks != [] {
      SumOfValuesIsCategoryTotals(summary, ks[1..], es);
    }
  }

  /** Adding up the summary's values, each key once, gives the month total: every expense of the
      month is counted under exactly one key, including expenses whose category is not a known one. */
  lemma SummaryAddsUpToMonthTotal(cs: seq<Category>, es: seq<Expense>, year: int, month: int, ks: seq<string>)
    requires Distinct(ks)
    requires forall k :: k in ks <==> k in CategorySummary(cs, es, year, month)
    ensures SumOfValues(CategorySummary(cs, es, year, month), ks) == MonthTotal(es, year, month)
  {
    var inMonth := ExpensesInMonth(es, year, month);
    SumOfValuesIsCategoryTotals(CategorySummary(cs, es, year, month), ks, inMonth);
    CategoryTotalsCoverSum(ks, inMonth);
  }

  // ---------------------------------------------------------------------------------------------
  // Invariants of the store

  /** Ids rise strictly in storage order and all lie below the counter; so no two are equal and
      the counter never hands out an id already in use. */
  predicate IdsFresh(es: seq<Expense>, nextExpenseId: int) {
    && (forall i, j :: 0 <= i < j < |es| ==> es[i].id < es[j].id)
    && (forall i :: 0 <= i < |es| ==> es[i].id < nextExpenseId)
  }

  lemma FreshIdsAreUnique(es: seq<Expense>, nextExpenseId: int)
    requires IdsFresh(es, nextExpenseId)
    ensures forall i, j :: 0 <= i < |es| && 0 <= j < |es| && i != j ==> es[i].id != es[j].id
  {
  }

  predicate NamesDistinct(cs: seq<Category>) {
    forall i, j :: 0 <= i < j < |cs| ==> cs[i].name != cs[j].name
  }

  /** The nine categories a store starts with when there is no data file. */
  function DefaultCategories(): seq<Category> {
    [ Category("Food", "Groceries, restaurants, etc."),
      Category("Housing", "Rent, mortgage, repairs"),
      Category("Transportation", "Public transit, car expenses"),
      Category("Utilities", "Electricity, water, internet"),
      Category("Entertainment", "Movies, games, hobbies"),
      Category("Health", "Medical expenses, insurance"),
      Category("Personal", "Clothing, grooming"),
      Category("Education", "Books, courses, tuition"),
      Category("Miscellaneous", "Other expenses") ]
  }

  function DefaultCategoryNames(): seq<string> {
    ["Food", "Housing", "Transportation", "Utilities", "Entertainment",
     "Health", "Personal", "Education", "Miscellaneous"]
  }

  lemma DefaultCategoriesNamed()
    ensures |DefaultCategories()| == |DefaultCategoryNames()| == 9
    ensures forall i :: 0 <= i < 9 ==> DefaultCategories()[i].name == DefaultCategoryNames()[i]
    ensures NamesDistinct(DefaultCategories())
  {
  }
}
