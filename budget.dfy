/**
 * The budgets widget: spending that no budget covers, the preview of the
 * three most-used budgets, each budget bar's percentage and status, and the
 * budget a submitted form creates.
 */
module Budget {
  import opened Wrappers
  import opened Domain
  import opened Text
  import opened Lists
  import opened Sorting
  import opened JsNumber

  /**
   * A spending limit for one category. The limit is whatever `Number(...)`
   * made of the typed text, so it may be 0 or NaN.
   */
  datatype Budget = Budget(id: Id, category: Category, limit: Num, period: string, spent: real)

  // --------------------------------------------------- unbudgeted spending

  function SummaryTotal(ss: seq<SpendingSummary>): real
  {
    if ss == [] then 0.0 else ss[0].total + SummaryTotal(ss[1..])
  }

  function BudgetedCategories(budgets: seq<Budget>): set<Category> {
    set b | b in budgets :: b.category
  }

  /** The summaries whose category is (`inCovered`) or is not among `covered`, in order. */
  function Select(ss: seq<SpendingSummary>, covered: set<Category>, inCovered: bool): (r: seq<SpendingSummary>)
    ensures forall i :: 0 <= i < |r| ==> r[i] in ss && (r[i].category in covered <==> inCovered)
    ensures forall i :: 0 <= i < |ss| && (ss[i].category in covered <==> inCovered) ==> ss[i] in r
  {
    if ss == [] then []
    else
      assert forall x :: x in ss <==> x == ss[0] || x in ss[1..];
      (if (ss[0].category in covered) == inCovered then [ss[0]] else []) + Select(ss[1..], covered, inCovered)
  }

  /**
   * The summary totals whose category has no budget: together with the
   * budgeted ones they make up the whole summary total.
   */
  function UnbudgetedSpending(budgets: seq<Budget>, summaries: seq<SpendingSummary>): (r: real)
    ensures r + BudgetedSpending(budgets, summaries) == SummaryTotal(summaries)
  {
    SelectPartition(summaries, BudgetedCategories(budgets));
    SummaryTotal(Select(summaries, BudgetedCategories(budgets), false))
  }

  /** The summary totals whose category has a budget. */
  function BudgetedSpending(budgets: seq<Budget>, summaries: seq<SpendingSummary>): (r: real)
    ensures (forall s :: s in summaries ==> s.category !in BudgetedCategories(budgets)) ==> r == 0.0
  {
    SummaryTotal(Select(summaries, BudgetedCategories(budgets), true))
  }

  lemma {:induction false} SelectPartition(ss: seq<SpendingSummary>, covered: set<Category>)
    ensures SummaryTotal(Select(ss, covered, false)) + SummaryTotal(Select(ss, covered, true)) == SummaryTotal(ss)
  {
    if ss != [] {
      SelectPartition(ss[1..], covered);
      var un, bu := Select(ss, covered, false), Select(ss, covered, true);
      if ss[0].category in covered {
        assert un == Select(ss[1..], covered, false);
        assert bu[1..] == Select(ss[1..], covered, true);
      } else {
        assert bu == Select(ss[1..], covered, true);
        assert un[1..] == Select(ss[1..], covered, false);
      }
    }
  }

  /** When every summary category has a budget, nothing is unbudgeted. */
  lemma AllBudgetedNothingLeft(budgets: seq<Budget>, summaries: seq<SpendingSummary>)
    requires forall s :: s in summaries ==> s.category in BudgetedCategories(budgets)
    ensures UnbudgetedSpending(budgets, summaries) == 0.0
  {
  }

  // ---------------------------------------------------------------- preview

  /** `spent / limit`. */
  function Usage(b: Budget): (r: Num)
    ensures b.limit.Fin? && b.limit.v != 0.0 ==> r == Fin(b.spent / b.limit.v)
  {
    Div(Fin(b.spent), b.limit)
  }

  /**
   * The comparator `b.spent / b.limit - a.spent / a.limit` as "may precede":
   * its result is not positive (a NaN result counts as 0).
   */
  predicate MoreUsed(a: Budget, b: Budget) {
    !Greater(Sub(Usage(b), Usage(a)), Fin(0.0))
  }

  const PreviewCount: nat := 3

  /** The budgets the widget lists: all of them, or in preview the three most used. */
  function DisplayBudgets(budgets: seq<Budget>, isPreview: bool): (r: seq<Budget>)
    ensures !isPreview ==> r == budgets
    ensures isPreview ==> |r| == (if |budgets| < PreviewCount then |budgets| else PreviewCount)
    ensures isPreview ==> |r| <= PreviewCount && multiset(r) <= multiset(budgets)
    ensures isPreview && |budgets| <= PreviewCount ==> multiset(r) == multiset(budgets)
  {
    if isPreview then Take(SortBy(budgets, MoreUsed), PreviewCount) else budgets
  }

  predicate PositiveLimits(budgets: seq<Budget>) {
    forall b :: b in budgets ==> b.limit.Fin? && b.limit.v > 0.0
  }

  /** The usage ratio of a budget with a finite non-zero limit. */
  function Ratio(b: Budget): real
    requires b.limit.Fin? && b.limit.v != 0.0
  {
    b.spent / b.limit.v
  }

  /** With positive limits the comparator orders by usage ratio. */
  lemma MoreUsedByRatio(a: Budget, b: Budget)
    requires a.limit.Fin? && a.limit.v > 0.0 && b.limit.Fin? && b.limit.v > 0.0
    ensures MoreUsed(a, b) <==> Ratio(a) >= Ratio(b)
  {
    assert Usage(a) == Fin(Ratio(a)) && Usage(b) == Fin(Ratio(b));
  }

  lemma MoreUsedRatios(budgets: seq<Budget>)
    requires PositiveLimits(budgets)
    ensures forall a, b :: a in budgets && b in budgets ==> (MoreUsed(a, b) <==> Ratio(a) >= Ratio(b))
  {
    forall a, b | a in budgets && b in budgets ensures MoreUsed(a, b) <==> Ratio(a) >= Ratio(b) {
      MoreUsedByRatio(a, b);
    }
  }

  lemma MoreUsedPreorder(budgets: seq<Budget>)
    requires PositiveLimits(budgets)
    ensures PreorderOn(budgets, MoreUsed)
    ensures forall a, b :: a in budgets && b in budgets ==> (MoreUsed(a, b) <==> Ratio(a) >= Ratio(b))
  {
    MoreUsedRatios(budgets);
  }

  /** The preview in terms of the comparator itself. */
  lemma PreviewByComparator(budgets: seq<Budget>)
    requires PositiveLimits(budgets)
    ensures var r := DisplayBudgets(budgets, true);
      && (forall x :: x in r ==> x in budgets)
      && (forall i, j :: 0 <= i < j < |r| ==> MoreUsed(r[i], r[j]))
      && (forall x, y :: x in r && y in budgets && y !in r ==> MoreUsed(x, y))
  {
    MoreUsedPreorder(budgets);
    SortedPrefix(budgets, PreviewCount, MoreUsed);
  }

  /**
   * With positive limits the preview is ordered by usage, highest first, and
   * no budget left out of it is more used than one shown.
   */
  lemma PreviewMostUsed(budgets: seq<Budget>)
    requires PositiveLimits(budgets)
    ensures var r := DisplayBudgets(budgets, true);
      && (forall i :: 0 <= i < |r| ==> r[i] in budgets)
      && (forall i, j :: 0 <= i < j < |r| ==> Ratio(r[i]) >= Ratio(r[j]))
      && (forall x, y :: x in r && y in budgets && y !in r ==> Ratio(x) >= Ratio(y))
  {
    PreviewByComparator(budgets);
    var r := DisplayBudgets(budgets, true);
    forall i, j | 0 <= i < j < |r| ensures Ratio(r[i]) >= Ratio(r[j]) {
      assert r[i] in r && r[j] in r;
      MoreUsedByRatio(r[i], r[j]);
    }
    forall x, y | x in r && y in budgets && y !in r ensures Ratio(x) >= Ratio(y) {
      MoreUsedByRatio(x, y);
    }
  }

  // ------------------------------------------------------------- the card

  /** `Math.min((spent / limit) * 100, 100)`. */
  function Percentage(b: Budget): (r: Num)
    ensures !Greater(r, Fin(100.0))
    ensures b.limit.Fin? && b.limit.v > 0.0 ==> r.Fin? && r.v <= 100.0
  {
    Min(Scale(Usage(b), 100.0), Fin(100.0))
  }

  /**
   * `spent > limit`: more than a finite limit, or any spending against a
   * limit of minus infinity; a NaN or infinite limit is never exceeded.
   */
  predicate IsOverBudget(b: Budget): (r: bool)
    ensures r <==> (b.limit.Fin? && b.spent > b.limit.v) || b.limit.NegInf?
  {
    Greater(Fin(b.spent), b.limit)
  }

  /**
   * A bar above 85 % that is not over budget. Only a finite non-zero limit
   * can warn, and never once it is exceeded.
   */
  predicate IsWarning(b: Budget): (r: bool)
    ensures r ==> b.limit.Fin? && b.limit.v != 0.0 && b.spent <= b.limit.v
  {
    Greater(Percentage(b), Fin(85.0)) && !IsOverBudget(b)
  }

  /** The two statuses never hold together, and a warning means more than 85 %. */
  lemma StatusExclusive(b: Budget)
    ensures !(IsOverBudget(b) && IsWarning(b))
    ensures IsWarning(b) ==> Greater(Percentage(b), Fin(85.0))
  {
  }

  /** For a positive limit, the bar shows the usage ratio in percent, capped at 100. */
  lemma PercentageOfPositiveLimit(b: Budget)
    requires b.limit.Fin? && b.limit.v > 0.0
    ensures Percentage(b) == Fin(if Ratio(b) * 100.0 > 100.0 then 100.0 else Ratio(b) * 100.0)
  {
  }

  lemma MulMonotone(a: real, b: real, l: real)
    requires a <= b && l > 0.0
    ensures a * l <= b * l
  {
    assert b * l - a * l == (b - a) * l;
  }

  lemma RatioAboveOne(s: real, l: real)
    requires l > 0.0
    ensures s / l > 1.0 <==> s > l
    ensures s / l * 100.0 > 85.0 <==> 85.0 * l < 100.0 * s
  {
    var q := s / l;
    assert q * l == s;
    if q > 1.0 { assert q * l - 1.0 * l == (q - 1.0) * l; }
    if s > l && q <= 1.0 { MulMonotone(q, 1.0, l); }
    if q * 100.0 > 85.0 { assert q * 100.0 * l - 85.0 * l == (q * 100.0 - 85.0) * l; }
    if 85.0 * l < 100.0 * s {
      var p := q * 100.0;
      assert p * l == 100.0 * s;
      if p <= 85.0 { MulMonotone(p, 85.0, l); }
    }
  }

  /**
   * For a positive limit: over budget shows a full bar, and the warning is
   * exactly "more than 85 % of the limit spent, but not more than the limit".
   */
  lemma StatusBands(b: Budget)
    requires b.limit.Fin? && b.limit.v > 0.0
    ensures IsOverBudget(b) <==> b.spent > b.limit.v
    ensures IsOverBudget(b) ==> Percentage(b) == Fin(100.0)
    ensures IsWarning(b) <==> 85.0 * b.limit.v < 100.0 * b.spent && b.spent <= b.limit.v
  {
    PercentageOfPositiveLimit(b);
    RatioAboveOne(b.spent, b.limit.v);
  }

  // -------------------------------------------------------- the add form

  /** The characters `replace(/[^0-9.-]+/g, "")` keeps. */
  predicate LimitChar(c: char) { IsDigit(c) || c == '.' || c == '-' }

  function Pow10(k: nat): (r: nat)
    ensures r >= 1
  {
    if k == 0 then 1 else 10 * Pow10(k - 1)
  }

  /** An unsigned decimal literal `digits[.digits]` with at least one digit. */
  predicate UnsignedDecimal(s: string) {
    if '.' in s then
      var i := IndexOf(s, '.');
      AllDigits(s[..i]) && AllDigits(s[i + 1..]) && |s| >= 2
    else AllDigits(s) && |s| >= 1
  }

  function UnsignedValue(s: string): real
    requires UnsignedDecimal(s)
  {
    if '.' in s then
      var i := IndexOf(s, '.');
      ValueOf(s[..i]) as real + ValueOf(s[i + 1..]) as real / Pow10(|s| - i - 1) as real
    else ValueOf(s) as real
  }

  /**
   * `Number(s)` for a string of digits, dots and minus signs: 0 for the empty
   * string, an optionally negated decimal literal, NaN for anything else.
   */
  function NumberOf(s: string): (r: Num)
    requires forall i :: 0 <= i < |s| ==> LimitChar(s[i])
    ensures r.Fin? || r.NaN?
    ensures AllDigits(s) && s != "" ==> r == Fin(ValueOf(s) as real)
  {
    if s == "" then Fin(0.0)
    else
      var negative := s[0] == '-';
      var body := if negative then s[1..] else s;
      if UnsignedDecimal(body) then
        var v := UnsignedValue(body);
        Fin(if negative then -v else v)
      else NaN
  }

  /**
   * `AddBudgetModal.handleSubmit`: nothing for an empty limit, otherwise a
   * monthly budget with nothing spent yet and the limit parsed from the
   * digits, dots and minus signs of the text.
   */
  function NewBudget(id: Id, category: Category, limitText: string): (r: Option<Budget>)
    ensures limitText == "" <==> r.None?
    ensures r.Some? ==> r.value.id == id && r.value.category == category
    ensures r.Some? ==> r.value.period == "monthly" && r.value.spent == 0.0
    ensures r.Some? ==> r.value.limit == NumberOf(Keep(limitText, LimitChar))
  {
    if limitText == "" then None
    else Some(Budget(id, category, NumberOf(Keep(limitText, LimitChar)), "monthly", 0.0))
  }

  /** A limit typed with thousands separators gives that whole number. */
  lemma NewBudgetFromGrouped(id: Id, category: Category, n: nat)
    ensures NewBudget(id, category, Grouped(n)) == Some(Budget(id, category, Fin(n as real), "monthly", 0.0))
  {
    var g := Grouped(n);
    KeepAgree(g, LimitChar, NotComma);
    UngroupGrouped(n);
    ValueOfDecimalString(n);
  }

  /** A limit with no digits at all gives 0, and the bar is then NaN. */
  lemma NewBudgetWithoutDigits(id: Id, category: Category)
    ensures var b := NewBudget(id, category, "abc");
      b.Some? && b.value.limit == Fin(0.0) && Percentage(b.value).NaN? && !IsWarning(b.value)
  {
    assert Keep("abc", LimitChar) == "";
  }
}
