/**
 * The figures of the monthly PDF report: the month's transactions, the
 * income and expense subsets and their totals, net savings and savings
 * rate, the cash-flow bar, the per-category totals and the top expenses.
 * Drawing the document is not modelled.
 */
module Report {
  import opened Wrappers
  import opened Domain
  import opened Lists
  import opened Sorting

  /** The entry's date parses to the given month (0-11) and year. */
  predicate InMonth(e: SpendingEntry, month: int, year: int) {
    e.date.Some? && e.date.value.Parsed? && e.date.value.month == month && e.date.value.year == year
  }

  predicate IsIncome(e: SpendingEntry) { e.entryType == Some(Income) }
  predicate IsExpense(e: SpendingEntry) { e.entryType == Some(Expense) }

  function MonthlyTransactions(es: seq<SpendingEntry>, month: int, year: int): (r: seq<SpendingEntry>)
    ensures forall i :: 0 <= i < |r| ==> r[i] in es && r[i].date.Some? && r[i].date.value.Parsed?
    ensures forall i :: 0 <= i < |r| ==> r[i].date.value.month == month && r[i].date.value.year == year
    ensures forall i :: 0 <= i < |es| && InMonth(es[i], month, year) ==> es[i] in r
    ensures forall x :: multiset(r)[x] == if InMonth(x, month, year) then multiset(es)[x] else 0
  {
    FilterCounts(es, e => InMonth(e, month, year));
    Filter(es, e => InMonth(e, month, year))
  }

  function IncomeTransactions(es: seq<SpendingEntry>): (r: seq<SpendingEntry>)
    ensures forall i :: 0 <= i < |r| ==> r[i] in es && r[i].entryType == Some(Income)
    ensures forall i :: 0 <= i < |es| && es[i].entryType == Some(Income) ==> es[i] in r
    ensures forall x :: multiset(r)[x] == if IsIncome(x) then multiset(es)[x] else 0
  {
    FilterCounts(es, IsIncome);
    Filter(es, IsIncome)
  }

  function ExpenseTransactions(es: seq<SpendingEntry>): (r: seq<SpendingEntry>)
    ensures forall i :: 0 <= i < |r| ==> r[i] in es && r[i].entryType == Some(Expense)
    ensures forall i :: 0 <= i < |es| && es[i].entryType == Some(Expense) ==> es[i] in r
    ensures forall x :: multiset(r)[x] == if IsExpense(x) then multiset(es)[x] else 0
  {
    FilterCounts(es, IsExpense);
    Filter(es, IsExpense)
  }

  /** Income and expenses never share an entry; transfers and untyped entries are in neither. */
  lemma IncomeExpenseDisjoint(es: seq<SpendingEntry>)
    ensures forall e :: e in IncomeTransactions(es) ==> e !in ExpenseTransactions(es)
    ensures forall e :: e in es && (e.entryType.None? || e.entryType == Some(Transfer)) ==>
      e !in IncomeTransactions(es) && e !in ExpenseTransactions(es)
  {
  }

  /** `reduce((acc, t) => acc + t.amount, 0)`; a sum of non-negative amounts is non-negative. */
  function Total(es: seq<SpendingEntry>): (r: real)
    ensures (forall i :: 0 <= i < |es| ==> es[i].amount >= 0.0) ==> r >= 0.0
  {
    if es == [] then 0.0 else Total(es[..|es| - 1]) + es[|es| - 1].amount
  }

  /** `(netSavings / totalIncome) * 100` when there is income, else 0. */
  function SavingsRate(totalIncome: real, netSavings: real): (r: real)
    ensures totalIncome <= 0.0 ==> r == 0.0
    ensures totalIncome > 0.0 ==> r * totalIncome == netSavings * 100.0
  {
    if totalIncome > 0.0 then (netSavings / totalIncome) * 100.0 else 0.0
  }

  /** With no negative expense, the savings rate is at most 100. */
  lemma SavingsRateAtMost100(totalIncome: real, totalExpense: real)
    requires totalExpense >= 0.0
    ensures SavingsRate(totalIncome, totalIncome - totalExpense) <= 100.0
  {
    if totalIncome > 0.0 {
      var r := SavingsRate(totalIncome, totalIncome - totalExpense);
      assert r * totalIncome <= 100.0 * totalIncome;
    }
  }

  /** The red bar of the cash-flow chart, clamped to the full bar. */
  function ExpenseBarWidth(totalIncome: real, totalExpense: real, maxBarWidth: real): (r: real)
    ensures r <= maxBarWidth
    ensures totalIncome <= 0.0 && maxBarWidth >= 0.0 ==> r == 0.0
    ensures totalIncome > 0.0 && totalExpense >= 0.0 && maxBarWidth >= 0.0 ==> r >= 0.0
    ensures totalIncome > 0.0 && 0.0 <= totalExpense <= totalIncome && maxBarWidth >= 0.0 ==>
      r * totalIncome == totalExpense * maxBarWidth
    ensures totalIncome > 0.0 && totalExpense >= totalIncome && maxBarWidth >= 0.0 ==> r == maxBarWidth
  {
    var width := if totalIncome > 0.0 then (totalExpense / totalIncome) * maxBarWidth else 0.0;
    assert totalIncome > 0.0 && maxBarWidth >= 0.0 ==>
      && width * totalIncome == totalExpense * maxBarWidth
      && (totalExpense >= totalIncome ==> width >= maxBarWidth)
      && (0.0 <= totalExpense <= totalIncome ==> 0.0 <= width <= maxBarWidth) by {
      if totalIncome > 0.0 && maxBarWidth >= 0.0 {
        ScaledRatio(totalExpense, totalIncome, maxBarWidth, width);
      }
    }
    if width < maxBarWidth then width else maxBarWidth
  }

  /** A width `w` scaled by the ratio `e / i` of two amounts, for positive `i`. */
  lemma ScaledRatio(e: real, i: real, w: real, width: real)
    requires i > 0.0 && w >= 0.0 && width == (e / i) * w
    ensures width * i == e * w
    ensures e >= i ==> width >= w
    ensures 0.0 <= e <= i ==> 0.0 <= width <= w
  {
    var q := e / i;
    assert q * i == e;
    assert (q * w) * i == (q * i) * w;
    if e >= i {
      assert (q - 1.0) * i == e - i;
      assert q >= 1.0;
      assert q * w - w == (q - 1.0) * w;
    }
    if 0.0 <= e <= i {
      assert (1.0 - q) * i == i - e;
      assert 0.0 <= q <= 1.0;
      assert w - q * w == (1.0 - q) * w;
    }
  }

  // -------------------------------------------------------- category totals

  datatype CategoryTotal = CategoryTotal(category: Category, amount: real)

  /** `t.category || "other"`. */
  function EffectiveCategory(e: SpendingEntry): (c: Category)
    ensures c != ""
  {
    if e.category == "" then "other" else e.category
  }

  /** The amount of the entries that count under category `c`. */
  function CategorySum(es: seq<SpendingEntry>, c: Category): real
  {
    if es == [] then 0.0
    else CategorySum(es[..|es| - 1], c) + (if EffectiveCategory(es[|es| - 1]) == c then es[|es| - 1].amount else 0.0)
  }

  function RowsTotal(rows: seq<CategoryTotal>): real
  {
    if rows == [] then 0.0 else RowsTotal(rows[..|rows| - 1]) + rows[|rows| - 1].amount
  }

  predicate CategoriesDistinct(rows: seq<CategoryTotal>) {
    forall i, j :: 0 <= i < j < |rows| ==> rows[i].category != rows[j].category
  }

  lemma {:induction false} CategorySumAbsent(es: seq<SpendingEntry>, c: Category)
    requires forall i :: 0 <= i < |es| ==> EffectiveCategory(es[i]) != c
    ensures CategorySum(es, c) == 0.0
  {
    if es != [] {
      CategorySumAbsent(es[..|es| - 1], c);
    }
  }

  lemma {:induction false} RowsTotalBump(rows: seq<CategoryTotal>, j: nat, delta: real)
    requires j < |rows|
    ensures RowsTotal(rows[j := CategoryTotal(rows[j].category, rows[j].amount + delta)]) == RowsTotal(rows) + delta
  {
    var bumped := rows[j := CategoryTotal(rows[j].category, rows[j].amount + delta)];
    if j == |rows| - 1 {
      assert bumped[..|bumped| - 1] == rows[..|rows| - 1];
    } else {
      var init := rows[..|rows| - 1];
      RowsTotalBump(init, j, delta);
      assert bumped[..|bumped| - 1] == init[j := CategoryTotal(init[j].category, init[j].amount + delta)];
    }
  }

  /** The position of the row for `c`, or `|rows|` when there is none. */
  function RowOf(rows: seq<CategoryTotal>, c: Category): (j: nat)
    ensures j <= |rows|
    ensures j < |rows| ==> rows[j].category == c
    ensures j == |rows| ==> forall k :: 0 <= k < |rows| ==> rows[k].category != c
  {
    if rows == [] then 0
    else if rows[0].category == c then 0
    else 1 + RowOf(rows[1..], c)
  }

  /** `categoryTotals[cat] = (categoryTotals[cat] || 0) + t.amount` for one entry. */
  function AddEntry(rows: seq<CategoryTotal>, e: SpendingEntry): (r: seq<CategoryTotal>)
    ensures RowsTotal(r) == RowsTotal(rows) + e.amount
    ensures CategoriesDistinct(rows) ==> CategoriesDistinct(r)
  {
    var c := EffectiveCategory(e);
    var j := RowOf(rows, c);
    if j < |rows| then
      RowsTotalBump(rows, j, e.amount);
      BumpKeepsCategories(rows, j, rows[j].amount + e.amount);
      rows[j := CategoryTotal(c, rows[j].amount + e.amount)]
    else
      var r := rows + [CategoryTotal(c, e.amount)];
      assert r[..|rows|] == rows;
      r
  }

  ghost function RowCategories(rows: seq<CategoryTotal>): set<Category> {
    set k | 0 <= k < |rows| :: rows[k].category
  }

  ghost function EntryCategories(es: seq<SpendingEntry>): set<Category> {
    set i | 0 <= i < |es| :: EffectiveCategory(es[i])
  }

  /** `rows` is the record built from the entries `es`. */
  ghost predicate TotalsOf(rows: seq<CategoryTotal>, es: seq<SpendingEntry>) {
    && CategoriesDistinct(rows)
    && (forall k :: 0 <= k < |rows| ==> rows[k].amount == CategorySum(es, rows[k].category))
    && RowCategories(rows) == EntryCategories(es)
    && RowsTotal(rows) == Total(es)
  }

  lemma EntryCategoriesSnoc(es: seq<SpendingEntry>, e: SpendingEntry)
    ensures EntryCategories(es + [e]) == EntryCategories(es) + {EffectiveCategory(e)}
  {
    var ext := es + [e];
    assert forall i :: 0 <= i < |es| ==> ext[i] == es[i];
    assert ext[|es|] == e;
  }

  lemma CategorySumSnoc(es: seq<SpendingEntry>, e: SpendingEntry, c: Category)
    ensures CategorySum(es + [e], c) == CategorySum(es, c) + (if EffectiveCategory(e) == c then e.amount else 0.0)
  {
    assert (es + [e])[..|es|] == es;
  }

  /** Raising one row's amount keeps the categories, their order and their distinctness. */
  lemma BumpKeepsCategories(rows: seq<CategoryTotal>, j: nat, amount: real)
    requires j < |rows|
    ensures var after := rows[j := CategoryTotal(rows[j].category, amount)];
      && RowCategories(after) == RowCategories(rows)
      && (CategoriesDistinct(rows) ==> CategoriesDistinct(after))
  {
    var after := rows[j := CategoryTotal(rows[j].category, amount)];
    forall k | 0 <= k < |rows| ensures after[k].category == rows[k].category { }
  }

  /** The step that adds to an existing row. */
  lemma {:induction false} BumpKeepsTotals(rows: seq<CategoryTotal>, es: seq<SpendingEntry>, e: SpendingEntry)
    requires TotalsOf(rows, es) && RowOf(rows, EffectiveCategory(e)) < |rows|
    ensures TotalsOf(AddEntry(rows, e), es + [e])
  {
    var c := EffectiveCategory(e);
    var j := RowOf(rows, c);
    var after := AddEntry(rows, e);
    assert after == rows[j := CategoryTotal(rows[j].category, rows[j].amount + e.amount)];
    BumpKeepsCategories(rows, j, rows[j].amount + e.amount);
    EntryCategoriesSnoc(es, e);
    assert c in RowCategories(rows);
    assert RowCategories(after) == EntryCategories(es + [e]);
    assert (es + [e])[..|es|] == es;
    assert RowsTotal(after) == Total(es + [e]);
    BumpSums(rows, es, e, j);
  }

  /** After the bump every row still holds its category's sum. */
  lemma BumpSums(rows: seq<CategoryTotal>, es: seq<SpendingEntry>, e: SpendingEntry, j: nat)
    requires j < |rows| && rows[j].category == EffectiveCategory(e) && CategoriesDistinct(rows)
    requires forall k :: 0 <= k < |rows| ==> rows[k].amount == CategorySum(es, rows[k].category)
    ensures var after := rows[j := CategoryTotal(rows[j].category, rows[j].amount + e.amount)];
      forall k :: 0 <= k < |after| ==> after[k].amount == CategorySum(es + [e], after[k].category)
  {
    var after := rows[j := CategoryTotal(rows[j].category, rows[j].amount + e.amount)];
    forall k | 0 <= k < |after| ensures after[k].amount == CategorySum(es + [e], after[k].category) {
      CategorySumSnoc(es, e, after[k].category);
    }
  }

  /** The step that opens a row for a new category. */
  lemma {:induction false} AppendKeepsTotals(rows: seq<CategoryTotal>, es: seq<SpendingEntry>, e: SpendingEntry)
    requires TotalsOf(rows, es) && RowOf(rows, EffectiveCategory(e)) == |rows|
    ensures TotalsOf(AddEntry(rows, e), es + [e])
  {
    var c := EffectiveCategory(e);
    var after := AddEntry(rows, e);
    assert after == rows + [CategoryTotal(c, e.amount)];
    EntryCategoriesSnoc(es, e);
    assert c !in RowCategories(rows);
    CategorySumAbsent(es, c);
    assert after[..|rows|] == rows;
    forall k | 0 <= k < |after| ensures after[k].amount == CategorySum(es + [e], after[k].category) {
      CategorySumSnoc(es, e, after[k].category);
    }
    assert RowCategories(after) == RowCategories(rows) + {c} by {
      forall k | 0 <= k < |rows| ensures after[k] == rows[k] { }
      assert after[|rows|].category == c;
    }
    assert (es + [e])[..|es|] == es;
  }

  /** Each `forEach` step keeps the record in step with the entries seen so far. */
  lemma AddEntryKeepsTotals(rows: seq<CategoryTotal>, es: seq<SpendingEntry>, e: SpendingEntry)
    requires TotalsOf(rows, es)
    ensures TotalsOf(AddEntry(rows, e), es + [e])
  {
    if RowOf(rows, EffectiveCategory(e)) < |rows| {
      BumpKeepsTotals(rows, es, e);
    } else {
      AppendKeepsTotals(rows, es, e);
    }
  }

  /**
   * The per-category record built by `forEach` over the expenses, as its
   * entries in insertion order: one row per category that occurs (an entry
   * without a category counting under "other"), holding that category's
   * total, the rows together summing to the expense total.
   */
  method CategoryTotals(expenses: seq<SpendingEntry>) returns (rows: seq<CategoryTotal>)
    ensures CategoriesDistinct(rows)
    ensures forall k :: 0 <= k < |rows| ==> rows[k].amount == CategorySum(expenses, rows[k].category)
    ensures forall k :: 0 <= k < |rows| ==> rows[k].category != ""
    ensures RowCategories(rows) == EntryCategories(expenses)
    ensures RowsTotal(rows) == Total(expenses)
  {
    rows := [];
    var n := 0;
    while n < |expenses|
      invariant n <= |expenses|
      invariant TotalsOf(rows, expenses[..n])
    {
      AddEntryKeepsTotals(rows, expenses[..n], expenses[n]);
      assert expenses[..n + 1] == expenses[..n] + [expenses[n]];
      rows := AddEntry(rows, expenses[n]);
      n := n + 1;
    }
    assert expenses[..n] == expenses;
    forall k | 0 <= k < |rows| ensures rows[k].category != "" {
      assert rows[k].category in RowCategories(rows);
    }
  }

  /** The comparator `b - a` on amounts, as "may precede". */
  predicate AmountBefore(a: CategoryTotal, b: CategoryTotal) { a.amount >= b.amount }

  /** The comparator `b.amount - a.amount` as "may precede". */
  predicate LargerExpense(a: SpendingEntry, b: SpendingEntry): (r: bool)
    ensures r <==> !(b.amount - a.amount > 0.0)
  {
    a.amount >= b.amount
  }

  /** Category rows ordered by amount, largest first. */
  function CategoryRows(rows: seq<CategoryTotal>): (r: seq<CategoryTotal>)
    ensures multiset(r) == multiset(rows)
  {
    SortBy(rows, AmountBefore)
  }

  lemma CategoryRowsOrdered(rows: seq<CategoryTotal>)
    ensures forall i, j :: 0 <= i < j < |CategoryRows(rows)| ==>
      CategoryRows(rows)[i].amount >= CategoryRows(rows)[j].amount
  {
    SortBySorted(rows, AmountBefore);
  }

  /** A row's share of the expense total, in percent. */
  function CategoryShare(amount: real, totalExpense: real): (r: real)
    ensures totalExpense <= 0.0 ==> r == 0.0
    ensures 0.0 <= amount <= totalExpense ==> 0.0 <= r <= 100.0
    ensures totalExpense > 0.0 ==> r * totalExpense == amount * 100.0
  {
    if totalExpense > 0.0 then
      var q := amount / totalExpense;
      assert q * totalExpense == amount;
      assert 0.0 <= amount <= totalExpense ==> 0.0 <= q <= 1.0 by {
        if 0.0 <= amount <= totalExpense {
          assert q * totalExpense <= 1.0 * totalExpense;
        }
      }
      q * 100.0
    else 0.0
  }

  const TopCount: nat := 15

  /** The top-expenses table: the fifteen largest expenses, largest first. */
  function TopExpenses(expenses: seq<SpendingEntry>): (r: seq<SpendingEntry>)
    ensures |r| == if |expenses| < TopCount then |expenses| else TopCount
    ensures |r| <= TopCount && multiset(r) <= multiset(expenses)
    ensures |expenses| <= TopCount ==> multiset(r) == multiset(expenses)
  {
    Take(SortBy(expenses, LargerExpense), TopCount)
  }

  /** Top expenses are ordered largest first and none left out is larger. */
  lemma TopExpensesAreTop(expenses: seq<SpendingEntry>)
    ensures var r := TopExpenses(expenses);
      && (forall i, j :: 0 <= i < j < |r| ==> r[i].amount >= r[j].amount)
      && (forall x, y :: x in r && y in expenses && y !in r ==> x.amount >= y.amount)
  {
    var sorted := SortBy(expenses, LargerExpense);
    SortBySorted(expenses, LargerExpense);
    TakeIsTop(sorted, TopCount, LargerExpense);
    forall y | y in expenses ensures y in sorted {
      assert y in multiset(expenses);
    }
  }

  datatype MonthlyFigures = MonthlyFigures(
    totalIncome: real,
    totalExpense: real,
    netSavings: real,
    savingsRate: real,
    expenseBarWidth: real,
    categoryRows: seq<CategoryTotal>,
    categoryPercents: seq<real>,
    topExpenses: seq<SpendingEntry>)

  /** The computations of `generateMonthlyReport` for one month of one profile. */
  method GenerateMonthlyFigures(profile: Profile, month: int, year: int, maxBarWidth: real)
    returns (f: MonthlyFigures)
    ensures var monthly := MonthlyTransactions(profile.monthlySpending, month, year);
      && f.totalIncome == Total(IncomeTransactions(monthly))
      && f.totalExpense == Total(ExpenseTransactions(monthly))
    ensures f.netSavings == f.totalIncome - f.totalExpense
    ensures f.savingsRate == SavingsRate(f.totalIncome, f.netSavings)
    ensures f.expenseBarWidth == ExpenseBarWidth(f.totalIncome, f.totalExpense, maxBarWidth)
    ensures RowsTotal(f.categoryRows) == f.totalExpense
    ensures TotalsOf(f.categoryRows, ExpenseTransactions(MonthlyTransactions(profile.monthlySpending, month, year)))
    ensures forall i, j :: 0 <= i < j < |f.categoryRows| ==> f.categoryRows[i].amount >= f.categoryRows[j].amount
    ensures |f.categoryPercents| == |f.categoryRows|
    ensures forall k :: 0 <= k < |f.categoryRows| ==>
      f.categoryPercents[k] == CategoryShare(f.categoryRows[k].amount, f.totalExpense)
    ensures (forall i :: 0 <= i < |profile.monthlySpending| ==> profile.monthlySpending[i].amount >= 0.0) ==>
      forall k :: 0 <= k < |f.categoryPercents| ==> 0.0 <= f.categoryPercents[k] <= 100.0
    ensures f.topExpenses == TopExpenses(ExpenseTransactions(MonthlyTransactions(profile.monthlySpending, month, year)))
    ensures |f.topExpenses| <= TopCount
    ensures forall i :: 0 <= i < |f.topExpenses| ==>
      var e := f.topExpenses[i];
      e in profile.monthlySpending && InMonth(e, month, year) && e.entryType == Some(Expense)
  {
    var monthly := MonthlyTransactions(profile.monthlySpending, month, year);
    var incomes := IncomeTransactions(monthly);
    var expenses := ExpenseTransactions(monthly);
    var totalIncome := Total(incomes);
    var totalExpense := Total(expenses);
    var netSavings := totalIncome - totalExpense;
    var rows, percents := CategoryBreakdown(expenses);
    MonthExpensesNonNegative(profile, month, year);
    var top := TopExpenses(expenses);
    TopExpensesFromMonth(profile, month, year, top);
    f := MonthlyFigures(totalIncome, totalExpense, netSavings, SavingsRate(totalIncome, netSavings),
                        ExpenseBarWidth(totalIncome, totalExpense, maxBarWidth), rows, percents, top);
  }

  /**
   * The "Spending by Category" table: the category totals sorted largest
   * first, each with its share of the month's expenses in percent.
   */
  method CategoryBreakdown(expenses: seq<SpendingEntry>) returns (rows: seq<CategoryTotal>, percents: seq<real>)
    ensures TotalsOf(rows, expenses)
    ensures forall i, j :: 0 <= i < j < |rows| ==> rows[i].amount >= rows[j].amount
    ensures |percents| == |rows|
    ensures forall k :: 0 <= k < |rows| ==> percents[k] == CategoryShare(rows[k].amount, Total(expenses))
    ensures (forall i :: 0 <= i < |expenses| ==> expenses[i].amount >= 0.0) ==>
      forall k :: 0 <= k < |percents| ==> 0.0 <= percents[k] <= 100.0
  {
    var totals := CategoryTotals(expenses);
    rows := CategoryRows(totals);
    TotalsOfPermutation(totals, rows, expenses);
    CategoryRowsOrdered(totals);
    percents := seq(|rows|, k requires 0 <= k < |rows| => CategoryShare(rows[k].amount, Total(expenses)));
    if forall i :: 0 <= i < |expenses| ==> expenses[i].amount >= 0.0 {
      RowSharesBounded(expenses, rows);
    }
  }

  /** The month's expenses are entries of the profile, so they keep its non-negative amounts. */
  lemma MonthExpensesNonNegative(profile: Profile, month: int, year: int)
    ensures var expenses := ExpenseTransactions(MonthlyTransactions(profile.monthlySpending, month, year));
      (forall i :: 0 <= i < |profile.monthlySpending| ==> profile.monthlySpending[i].amount >= 0.0) ==>
        forall i :: 0 <= i < |expenses| ==> expenses[i].amount >= 0.0
  {
    if forall i :: 0 <= i < |profile.monthlySpending| ==> profile.monthlySpending[i].amount >= 0.0 {
      var monthly := MonthlyTransactions(profile.monthlySpending, month, year);
      NonNegativeWithin(monthly, profile.monthlySpending);
      NonNegativeWithin(ExpenseTransactions(monthly), monthly);
    }
  }

  /** Entries drawn from entries of non-negative amount have non-negative amounts. */
  lemma NonNegativeWithin(a: seq<SpendingEntry>, b: seq<SpendingEntry>)
    requires forall i :: 0 <= i < |a| ==> a[i] in b
    requires forall j :: 0 <= j < |b| ==> b[j].amount >= 0.0
    ensures forall i :: 0 <= i < |a| ==> a[i].amount >= 0.0
  {
    forall i | 0 <= i < |a| ensures a[i].amount >= 0.0 {
      var j :| 0 <= j < |b| && b[j] == a[i];
    }
  }

  /** Rows holding category sums of non-negative entries each take a share in 0..100 of the total. */
  lemma RowSharesBounded(es: seq<SpendingEntry>, rows: seq<CategoryTotal>)
    requires forall i :: 0 <= i < |es| ==> es[i].amount >= 0.0
    requires forall k :: 0 <= k < |rows| ==> rows[k].amount == CategorySum(es, rows[k].category)
    requires RowsTotal(rows) == Total(es)
    ensures forall k :: 0 <= k < |rows| ==> 0.0 <= CategoryShare(rows[k].amount, Total(es)) <= 100.0
  {
    forall k | 0 <= k < |rows| ensures rows[k].amount >= 0.0 {
      CategorySumNonNegative(es, rows[k].category);
    }
    RowsBelowTotal(rows);
  }

  lemma {:induction false} CategorySumNonNegative(es: seq<SpendingEntry>, c: Category)
    requires forall i :: 0 <= i < |es| ==> es[i].amount >= 0.0
    ensures CategorySum(es, c) >= 0.0
  {
    if es != [] {
      CategorySumNonNegative(es[..|es| - 1], c);
    }
  }

  /** Rows of non-negative amounts: the total is non-negative and no row exceeds it. */
  lemma {:induction false} RowsBelowTotal(rows: seq<CategoryTotal>)
    requires forall i :: 0 <= i < |rows| ==> rows[i].amount >= 0.0
    ensures RowsTotal(rows) >= 0.0
    ensures forall k :: 0 <= k < |rows| ==> rows[k].amount <= RowsTotal(rows)
  {
    if rows != [] {
      var init := rows[..|rows| - 1];
      RowsBelowTotal(init);
      forall k | 0 <= k < |rows| ensures rows[k].amount <= RowsTotal(rows) {
        if k < |init| {
          assert rows[k] == init[k];
        }
      }
    }
  }

  lemma TopExpensesFromMonth(profile: Profile, month: int, year: int, top: seq<SpendingEntry>)
    requires top == TopExpenses(ExpenseTransactions(MonthlyTransactions(profile.monthlySpending, month, year)))
    ensures forall i :: 0 <= i < |top| ==>
      var e := top[i];
      e in profile.monthlySpending && InMonth(e, month, year) && e.entryType == Some(Expense)
  {
    var monthly := MonthlyTransactions(profile.monthlySpending, month, year);
    var expenses := ExpenseTransactions(monthly);
    forall i | 0 <= i < |top|
      ensures top[i] in profile.monthlySpending && InMonth(top[i], month, year) && top[i].entryType == Some(Expense)
    {
      InSubMultiset(top, expenses, i);
      var k :| 0 <= k < |expenses| && expenses[k] == top[i];
      assert expenses[k] in monthly && expenses[k].entryType == Some(Expense);
      var m :| 0 <= m < |monthly| && monthly[m] == expenses[k];
      assert monthly[m] in profile.monthlySpending;
    }
  }

  lemma InSubMultiset<T>(a: seq<T>, b: seq<T>, i: nat)
    requires multiset(a) <= multiset(b) && i < |a|
    ensures exists k :: 0 <= k < |b| && b[k] == a[i]
  {
    assert a[i] in multiset(a);
    assert a[i] in multiset(b);
    assert a[i] in b;
  }

  /** Reordering a record of category totals keeps it a record of the same entries. */
  lemma TotalsOfPermutation(a: seq<CategoryTotal>, b: seq<CategoryTotal>, es: seq<SpendingEntry>)
    requires TotalsOf(a, es) && multiset(a) == multiset(b)
    ensures TotalsOf(b, es)
  {
    RowsTotalPermutation(a, b);
    DistinctPermutation(a, b);
    forall k | 0 <= k < |b| ensures b[k].amount == CategorySum(es, b[k].category) && b[k] in a {
      assert b[k] in multiset(a);
    }
    forall k | 0 <= k < |a| ensures a[k] in b {
      assert a[k] in multiset(b);
    }
    assert RowCategories(b) == RowCategories(a) by {
      forall c | c in RowCategories(a) ensures c in RowCategories(b) {
        var k :| 0 <= k < |a| && a[k].category == c;
        var m :| 0 <= m < |b| && b[m] == a[k];
      }
      forall c | c in RowCategories(b) ensures c in RowCategories(a) {
        var k :| 0 <= k < |b| && b[k].category == c;
        var m :| 0 <= m < |a| && a[m] == b[k];
      }
    }
  }

  /** Rows with distinct categories hold each row once. */
  lemma {:induction false} DistinctOnce(a: seq<CategoryTotal>, x: CategoryTotal)
    requires CategoriesDistinct(a)
    ensures multiset(a)[x] <= 1
  {
    if a != [] {
      var init := a[..|a| - 1];
      assert a == init + [a[|a| - 1]];
      DistinctOnce(init, x);
    }
  }

  lemma DistinctPermutation(a: seq<CategoryTotal>, b: seq<CategoryTotal>)
    requires CategoriesDistinct(a) && multiset(a) == multiset(b)
    ensures CategoriesDistinct(b)
  {
    forall i, j | 0 <= i < j < |b| ensures b[i].category != b[j].category {
      if b[i] == b[j] {
        assert b == b[..j] + b[j..];
        assert b[i] in b[..j] && b[j] in b[j..];
        assert multiset(b)[b[i]] == multiset(b[..j])[b[i]] + multiset(b[j..])[b[i]];
        DistinctOnce(a, b[i]);
      } else {
        assert b[i] in multiset(a) && b[j] in multiset(a);
        var p :| 0 <= p < |a| && a[p] == b[i];
        var q :| 0 <= q < |a| && a[q] == b[j];
      }
    }
  }

  /** Reordering the rows does not change their total. */
  lemma {:induction false} RowsTotalPermutation(a: seq<CategoryTotal>, b: seq<CategoryTotal>)
    requires multiset(a) == multiset(b)
    ensures RowsTotal(a) == RowsTotal(b)
    decreases |a|
  {
    if a != [] {
      var x := a[|a| - 1];
      assert x in multiset(b);
      var k :| 0 <= k < |b| && b[k] == x;
      var aRest, bRest := a[..|a| - 1], b[..k] + b[k + 1..];
      MultisetRemove(b, k);
      assert a == aRest + [x];
      assert multiset(aRest) == multiset(bRest);
      RowsTotalPermutation(aRest, bRest);
      RowsTotalRemove(b, k);
      assert RowsTotal(a) == RowsTotal(aRest) + x.amount;
    }
  }

  lemma MultisetRemove<T>(b: seq<T>, k: nat)
    requires k < |b|
    ensures multiset(b[..k] + b[k + 1..]) == multiset(b) - multiset{b[k]}
  {
    assert b == b[..k] + [b[k]] + b[k + 1..];
  }

  lemma {:induction false} RowsTotalRemove(b: seq<CategoryTotal>, k: nat)
    requires k < |b|
    ensures RowsTotal(b) == RowsTotal(b[..k] + b[k + 1..]) + b[k].amount
  {
    if k == |b| - 1 {
      assert b[..k] + b[k + 1..] == b[..|b| - 1];
    } else {
      var init := b[..|b| - 1];
      RowsTotalRemove(init, k);
      var rest := b[..k] + b[k + 1..];
      assert rest[..|rest| - 1] == init[..k] + init[k + 1..];
      assert rest[|rest| - 1] == b[|b| - 1];
    }
  }
}
