/**
 * The bodies of the profile reducers of the financial context: each takes
 * the previous profile's collections and returns the next ones. The class
 * FinancialProvider (profile_sync.dfy) applies them to its `profile` field.
 */
module ProfileOps {
  import opened Wrappers
  import opened Domain

  // ------------------------------------------------------ spending summary

  predicate HasCategory(s: seq<SpendingSummary>, category: Category) {
    exists i :: 0 <= i < |s| && s[i].category == category
  }

  /** At most one summary row per category. */
  predicate CategoriesUnique(s: seq<SpendingSummary>) {
    forall i, j :: 0 <= i < j < |s| ==> s[i].category != s[j].category
  }

  /** One more transaction of `amount` on an existing row; its confidence is kept. */
  function Bumped(row: SpendingSummary, amount: real): SpendingSummary {
    row.(total := row.total + amount, transactionCount := row.transactionCount + 1)
  }

  /**
   * `addSpendingSummary`: accumulate into every row of `category` when there
   * is one, otherwise append a new row with one transaction.
   */
  function AddToSummary(s: seq<SpendingSummary>, category: Category, amount: real, confidence: Confidence)
    : (r: seq<SpendingSummary>)
    ensures HasCategory(s, category) ==> |r| == |s|
    ensures HasCategory(s, category) ==>
      forall i :: 0 <= i < |s| ==>
        r[i] == if s[i].category == category then Bumped(s[i], amount) else s[i]
    ensures !HasCategory(s, category) ==>
      r == s + [SpendingSummary(category, amount, confidence, 1)]
    ensures HasCategory(r, category) && |r| >= |s|
    ensures CategoriesUnique(s) ==> CategoriesUnique(r)
  {
    if HasCategory(s, category) then
      seq(|s|, i requires 0 <= i < |s| =>
        if s[i].category == category then Bumped(s[i], amount) else s[i])
    else
      var r := s + [SpendingSummary(category, amount, confidence, 1)];
      assert r[|s|].category == category;
      r
  }

  /**
   * Two additions to a category that had no row give one row holding both
   * amounts and a count of two, with the confidence of the first addition.
   */
  lemma AddToSummaryTwice(s: seq<SpendingSummary>, category: Category, a1: real, a2: real,
                          c1: Confidence, c2: Confidence)
    requires !HasCategory(s, category)
    ensures AddToSummary(AddToSummary(s, category, a1, c1), category, a2, c2)
            == s + [SpendingSummary(category, a1 + a2, c1, 2)]
  {
    var once := AddToSummary(s, category, a1, c1);
    var twice := AddToSummary(once, category, a2, c2);
    assert HasCategory(once, category) by { assert once[|s|].category == category; }
    forall i | 0 <= i < |s| ensures twice[i] == s[i] {
      assert once[i] == s[i];
    }
    assert twice[|s|] == SpendingSummary(category, a1 + a2, c1, 2);
  }

  // ------------------------------------------------------------------ goals

  /** `Partial<SavingsGoal>`: the fields present in an update. */
  datatype GoalUpdate = GoalUpdate(
    id: Option<Id>,
    name: Option<string>,
    target: Option<real>,
    current: Option<real>,
    deadline: Option<string>,
    priority: Option<Confidence>,
    createdAt: Option<string>)

  /** `{ ...g, ...updates }`: every field present in the update wins. */
  function Merged(g: SavingsGoal, u: GoalUpdate): SavingsGoal {
    SavingsGoal(u.id.GetOr(g.id), u.name.GetOr(g.name), u.target.GetOr(g.target),
                u.current.GetOr(g.current), u.deadline.GetOr(g.deadline),
                u.priority.GetOr(g.priority), u.createdAt.GetOr(g.createdAt))
  }

  predicate HasGoal(goals: seq<SavingsGoal>, id: Id) {
    exists i :: 0 <= i < |goals| && goals[i].id == id
  }

  /** `updateGoal`: merge the update into every goal whose id matches. */
  function UpdateGoals(goals: seq<SavingsGoal>, id: Id, u: GoalUpdate): (r: seq<SavingsGoal>)
    ensures |r| == |goals|
    ensures forall i :: 0 <= i < |goals| && goals[i].id != id ==> r[i] == goals[i]
    ensures forall i :: 0 <= i < |goals| && goals[i].id == id ==> r[i] == Merged(goals[i], u)
    ensures !HasGoal(goals, id) ==> r == goals
  {
    seq(|goals|, i requires 0 <= i < |goals| => if goals[i].id == id then Merged(goals[i], u) else goals[i])
  }

  /** `deleteGoal`: keep the goals whose id differs, in order. */
  function RemoveGoal(goals: seq<SavingsGoal>, id: Id): (r: seq<SavingsGoal>)
    ensures |r| <= |goals|
    ensures !HasGoal(r, id)
    ensures forall g :: g in r <==> g in goals && g.id != id
    ensures !HasGoal(goals, id) ==> r == goals
  {
    if goals == [] then []
    else
      var rest := RemoveGoal(goals[1..], id);
      assert !HasGoal(goals, id) ==> !HasGoal(goals[1..], id) by {
        if HasGoal(goals[1..], id) {
          var i :| 0 <= i < |goals[1..]| && goals[1..][i].id == id;
          assert goals[i + 1].id == id;
        }
      }
      if goals[0].id == id then rest else [goals[0]] + rest
  }

  /** Deleting the same id twice is the same as deleting it once. */
  lemma RemoveGoalIdempotent(goals: seq<SavingsGoal>, id: Id)
    ensures RemoveGoal(RemoveGoal(goals, id), id) == RemoveGoal(goals, id)
  {
  }

  /** The filter works piecewise, so it keeps the relative order of what stays. */
  lemma {:induction false} RemoveGoalAppend(a: seq<SavingsGoal>, b: seq<SavingsGoal>, id: Id)
    ensures RemoveGoal(a + b, id) == RemoveGoal(a, id) + RemoveGoal(b, id)
  {
    if a != [] {
      var g, t := a[0], a[1..];
      assert a == [g] + t && a + b == [g] + (t + b);
      RemoveGoalCons(g, t, id);
      RemoveGoalCons(g, t + b, id);
      RemoveGoalAppend(t, b, id);
      AppendRegroup(if g.id == id then [] else [g], RemoveGoal(t, id), RemoveGoal(b, id));
    } else {
      assert a + b == b;
    }
  }

  lemma AppendRegroup<T>(h: seq<T>, x: seq<T>, y: seq<T>)
    ensures h + (x + y) == (h + x) + y
  {
  }

  /** One step of the delete: the first goal is dropped exactly when it has the id. */
  lemma RemoveGoalCons(g: SavingsGoal, rest: seq<SavingsGoal>, id: Id)
    ensures RemoveGoal([g] + rest, id) == (if g.id == id then [] else [g]) + RemoveGoal(rest, id)
  {
    assert ([g] + rest)[0] == g && ([g] + rest)[1..] == rest;
  }

  // ------------------------------------------------------- data completeness

  /**
   * `calculateDataCompleteness`: 30 for an income, 8 per summary row up to
   * 40, 20 for having a goal, 10 for a name.
   */
  function DataCompleteness(p: Profile): (r: int)
    ensures 0 <= r <= 100
    ensures r == 100 <==>
      p.income.Some? && |p.spendingSummary| >= 5 && p.goals != [] && p.name != ""
    ensures r == 0 <==>
      p.income.None? && p.spendingSummary == [] && p.goals == [] && p.name == ""
  {
    var spending := if 8 * |p.spendingSummary| < 40 then 8 * |p.spendingSummary| else 40;
    (if p.income.Some? then 30 else 0) + spending
      + (if p.goals != [] then 20 else 0) + (if p.name != "" then 10 else 0)
  }

  /** Adding to the summary never lowers the score. */
  lemma CompletenessGrowsWithSummary(p: Profile, category: Category, amount: real, confidence: Confidence)
    ensures DataCompleteness(p.(spendingSummary := AddToSummary(p.spendingSummary, category, amount, confidence)))
            >= DataCompleteness(p)
  {
  }

  /** An income and summaries for two categories, and nothing else, score 46. */
  lemma CompletenessIncomeAndTwoCategories(p: Profile, c1: Category, c2: Category, a1: real, a2: real)
    requires p.income.Some? && p.spendingSummary == [] && p.goals == [] && p.name == ""
    requires c1 != c2
    ensures DataCompleteness(p.(spendingSummary :=
              AddToSummary(AddToSummary([], c1, a1, High), c2, a2, High))) == 46
  {
    var once := AddToSummary([], c1, a1, High);
    assert !HasCategory(once, c2);
  }
}
