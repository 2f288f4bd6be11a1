/**
 * The dashboard's six-month spending trend: the monthly income used as the
 * budget line, and one bucket per month from five months ago to the current
 * month holding the rounded expense total of that month.
 */
module Trend {
  import opened Wrappers
  import opened Domain
  import opened JsNumber

  /** One point of the chart. `month` is 0-11; the short month name is not modelled. */
  datatype Bucket = Bucket(year: int, month: int, spend: int, budget: int)

  const BucketCount: nat := 6

  /**
   * `profile.income?.amount || 0`, scaled to a month: weekly amounts times
   * 4.33, yearly amounts divided by 12.
   */
  method NormalizedIncome(income: Option<IncomeData>) returns (monthlyBudget: real)
    ensures income.None? ==> monthlyBudget == 0.0
    ensures income.Some? && income.value.frequency == Monthly ==> monthlyBudget == income.value.amount
    ensures income.Some? && income.value.frequency == Weekly ==> monthlyBudget == income.value.amount * 4.33
    ensures income.Some? && income.value.frequency == Yearly ==> monthlyBudget == income.value.amount / 12.0
  {
    monthlyBudget := if income.Some? then income.value.amount else 0.0;
    if income.Some? && income.value.frequency == Weekly {
      monthlyBudget := monthlyBudget * 4.33;
    }
    if income.Some? && income.value.frequency == Yearly {
      monthlyBudget := monthlyBudget / 12.0;
    }
  }

  /**
   * The month `back` months before (`year`, `month`): what
   * `new Date(year, month - back, 1)` reports as its year and month.
   */
  function MonthsBack(year: int, month: int, back: int): (r: (int, int))
    ensures 0 <= r.1 < 12
    ensures r.0 * 12 + r.1 == year * 12 + month - back
  {
    var total := year * 12 + month - back;
    (total / 12, total % 12)
  }

  lemma MonthsBackNone(year: int, month: int)
    requires 0 <= month < 12
    ensures MonthsBack(year, month, 0) == (year, month)
  {
  }

  /** Different offsets name different months, and one more offset is the month before. */
  lemma MonthsBackStep(year: int, month: int, i: int, j: int)
    ensures i != j ==> MonthsBack(year, month, i) != MonthsBack(year, month, j)
    ensures var (y1, m1) := MonthsBack(year, month, i + 1);
            var (y0, m0) := MonthsBack(year, month, i);
      (m0 > 0 ==> y1 == y0 && m1 == m0 - 1) && (m0 == 0 ==> y1 == y0 - 1 && m1 == 11)
  {
    var (y1, m1) := MonthsBack(year, month, i + 1);
    var (y0, m0) := MonthsBack(year, month, i);
    assert y1 * 12 + m1 + 1 == y0 * 12 + m0;
  }

  /** Across a year boundary: five months before February 2024 is September 2023. */
  lemma MonthsBackRollover()
    ensures MonthsBack(2024, 1, 5) == (2023, 8)
    ensures MonthsBack(2024, 1, 1) == (2024, 0)
    ensures MonthsBack(2024, 1, 2) == (2023, 11)
  {
  }

  /** The date a trend entry is placed by: `t.date || t.createdAt`. */
  function TrendDate(e: SpendingEntry): (r: Option<Stamp>)
    ensures r.Some? <==> e.date.Some? || e.createdAt.Some?
    ensures e.date.Some? ==> r == e.date
    ensures e.date.None? ==> r == e.createdAt
  {
    if e.date.Some? then e.date else e.createdAt
  }

  /** Only an expense whose date parses to that month and year counts. */
  predicate InBucket(e: SpendingEntry, year: int, month: int): (r: bool)
    ensures r ==> e.entryType == Some(Expense)
    ensures r ==> TrendDate(e).Some? && TrendDate(e).value.Parsed?
    ensures r ==> TrendDate(e).value.month == month && TrendDate(e).value.year == year
  {
    var d := TrendDate(e);
    d.Some? && d.value.Parsed? && d.value.month == month && d.value.year == year && e.entryType == Some(Expense)
  }

  /** The filter-and-sum of one month's expenses. */
  function MonthlySpend(es: seq<SpendingEntry>, year: int, month: int): (r: real)
    ensures (forall i :: 0 <= i < |es| ==> es[i].amount >= 0.0) ==> r >= 0.0
  {
    if es == [] then 0.0
    else MonthlySpend(es[..|es| - 1], year, month)
         + (if InBucket(es[|es| - 1], year, month) then es[|es| - 1].amount else 0.0)
  }

  lemma {:induction false} MonthlySpendEmpty(es: seq<SpendingEntry>, year: int, month: int)
    requires forall i :: 0 <= i < |es| ==> !InBucket(es[i], year, month)
    ensures MonthlySpend(es, year, month) == 0.0
  {
    if es != [] { MonthlySpendEmpty(es[..|es| - 1], year, month); }
  }

  /** An entry falls into at most one of the buckets. */
  lemma OneBucketPerEntry(e: SpendingEntry, year: int, month: int, i: int, j: int)
    requires i != j
    requires var (yi, mi) := MonthsBack(year, month, i); InBucket(e, yi, mi)
    ensures var (yj, mj) := MonthsBack(year, month, j); !InBucket(e, yj, mj)
  {
    MonthsBackStep(year, month, i, j);
  }

  /** The bucket `back` months before today. */
  function BucketAt(es: seq<SpendingEntry>, year: int, month: int, back: int, budget: int): (r: Bucket)
    ensures 0 <= r.month < 12 && r.year * 12 + r.month == year * 12 + month - back
    ensures r.budget == budget
    ensures (r.year, r.month) == MonthsBack(year, month, back)
  {
    var (y, m) := MonthsBack(year, month, back);
    Bucket(y, m, Round(MonthlySpend(es, y, m)), budget)
  }

  /**
   * The chart data and whether the chart is drawn. `todayYear`/`todayMonth`
   * stand for the clock reading.
   */
  method TrendData(profile: Profile, todayYear: int, todayMonth: int) returns (data: seq<Bucket>, hasData: bool)
    requires 0 <= todayMonth < 12
    ensures |data| == BucketCount
    ensures forall k :: 0 <= k < |data| ==>
      data[k] == BucketAt(profile.monthlySpending, todayYear, todayMonth, BucketCount - 1 - k, data[0].budget)
    ensures data[BucketCount - 1].year == todayYear && data[BucketCount - 1].month == todayMonth
    ensures forall k :: 0 <= k < |data| - 1 ==>
      (data[k + 1].year * 12 + data[k + 1].month) == (data[k].year * 12 + data[k].month) + 1
    ensures profile.income.None? ==> data[0].budget == 0
    ensures profile.income.Some? && profile.income.value.frequency == Monthly ==>
      data[0].budget == Round(profile.income.value.amount)
    ensures profile.income.Some? && profile.income.value.frequency == Weekly ==>
      data[0].budget == Round(profile.income.value.amount * 4.33)
    ensures profile.income.Some? && profile.income.value.frequency == Yearly ==>
      data[0].budget == Round(profile.income.value.amount / 12.0)
    ensures hasData <==> exists k :: 0 <= k < |data| && data[k].spend > 0
  {
    var monthlyBudget := NormalizedIncome(profile.income);
    var budget := Round(monthlyBudget);
    data := [];
    var i := BucketCount as int - 1;
    while i >= 0
      invariant -1 <= i < BucketCount
      invariant |data| == BucketCount - 1 - i
      invariant forall k :: 0 <= k < |data| ==>
        data[k] == BucketAt(profile.monthlySpending, todayYear, todayMonth, BucketCount - 1 - k, budget)
    {
      var (year, month) := MonthsBack(todayYear, todayMonth, i);
      var spend := MonthlySpend(profile.monthlySpending, year, month);
      data := data + [Bucket(year, month, Round(spend), budget)];
      i := i - 1;
    }
    MonthsBackNone(todayYear, todayMonth);
    hasData := exists k :: 0 <= k < |data| && data[k].spend > 0;
  }

  /** With no expense in any of the six months, the empty state is shown. */
  lemma NoSpendNoData(profile: Profile, todayYear: int, todayMonth: int, data: seq<Bucket>)
    requires |data| == BucketCount
    requires forall k :: 0 <= k < |data| ==>
      data[k] == BucketAt(profile.monthlySpending, todayYear, todayMonth, BucketCount - 1 - k, data[0].budget)
    requires forall e, back :: e in profile.monthlySpending && 0 <= back < BucketCount ==>
      !InBucket(e, MonthsBack(todayYear, todayMonth, back).0, MonthsBack(todayYear, todayMonth, back).1)
    ensures forall k :: 0 <= k < |data| ==> data[k].spend == 0
  {
    forall k | 0 <= k < |data| ensures data[k].spend == 0 {
      var (y, m) := MonthsBack(todayYear, todayMonth, BucketCount - 1 - k);
      var es := profile.monthlySpending;
      forall i | 0 <= i < |es| ensures !InBucket(es[i], y, m) {
        assert es[i] in es;
      }
      MonthlySpendEmpty(es, y, m);
    }
  }
}
