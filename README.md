# FinResolve core, modelled in Dafny

FinResolve is a personal-finance web app. Its user keeps a financial profile
with income, spending entries, per-category spending summaries and savings
goals. The app categorises bank transactions with a language model and shows
a dashboard: a six-month spending trend, budget bars and a recent-activity
feed. It can also produce a monthly PDF report. This project models the
deterministic logic inside that app and proves what it promises.

- `profile_sync.dfy` models the financial profile provider.
  - The class `FinancialProvider` holds the in-memory profile, the per-user
    local cache (a map from storage key to profile) and the remote row store.
  - It has the named mutations, the data-completeness score and the decisions
    made while loading and saving.
  - The reducer bodies live in `profile_ops.dfy`.
- `categorize.dfy` models batch categorisation.
  - It covers the batching loop, the per-batch fallback and the
    order-preserving map back onto the input with category validation.
  - The model call is an oracle parameter.
- `report.dfy` models the figures of the monthly report: the month filter,
  income and expenses, net savings and savings rate, the cash-flow bar, the
  category totals and the top expenses.
- `trend.dfy` models the six-month trend and income normalisation.
- `budget.dfy` models the budgets widget: unbudgeted spending, the preview
  ordering, the bar percentage and status, and the new-budget form.
- `activity.dfy` models the recent-activity ordering and the display of one
  entry.
- `income_input.dfy` models the onboarding income field.
- `sidebar.dfy` models the display name and avatar initials.
- `onboarding.dfy` models the two-sentence truncation of the assistant's
  answer.
- Shared modules:
  - `text.dfy`: string helpers;
  - `js_number.dfy`: numbers with NaN and the infinities;
  - `lists.dfy` and `sorting.dfy`: `filter`, `slice` and stable `sort`;
  - `domain.dfy`: the records;
  - `wrappers.dfy`: `Option`.

Clock readings, fresh ids, model replies and "the remote call threw" are
parameters. Dates are `Stamp` values: one that does not parse, or one with a
year, a month (0-11) and a millisecond timestamp. Amounts are exact reals.

## Model

| member | source | states |
|---|---|---|
| ProfileSync.StorageKey | frontend/src/contexts/FinancialContext.tsx:24-25 | a non-empty user id gives "finresolve-profile-" + id; a missing or empty id gives the anonymous key |
| ProfileSync.StorageKeyInjective | frontend/src/contexts/FinancialContext.tsx:24-25 | distinct non-empty user ids never share a cache key |
| ProfileSync.StorageKeyAnonymousCollision | frontend/src/contexts/FinancialContext.tsx:25 | the user id "anonymous" shares the anonymous bucket, and it is the only non-empty id that does |
| ProfileSync.KeepRows | frontend/src/contexts/FinancialContext.tsx:73-77 | a row is kept exactly when it is in the table and passes the test; unique row ids stay unique |
| ProfileSync.RowsOfUser | frontend/src/contexts/FinancialContext.tsx:73-77 | the rows selected by `eq("user_id", …)` are exactly the table rows of that user |
| ProfileSync.UserRow | frontend/src/contexts/FinancialContext.tsx:211-215 | `maybeSingle` gives no row exactly when the user does not have exactly one row; a row it gives is in the table, belongs to the user and is the user's only row |
| ProfileSync.OnlyRow | frontend/src/contexts/FinancialContext.tsx:73-77 | when a user has exactly one row, the query finds that row |
| ProfileSync.NullIfEmpty | frontend/src/contexts/FinancialContext.tsx:228-233 | an empty text is written as null, any other text as itself, and reading null back as "" recovers the text |
| ProfileSync.ToRow | frontend/src/contexts/FinancialContext.tsx:225-237 | the written row carries the chosen row id and the user id; income confidence is present whenever an amount is; an amount is stored exactly when the income is present and non-zero |
| ProfileSync.GoalsOf | frontend/src/contexts/FinancialContext.tsx:140-148 | a goal is loaded exactly when the goal table holds a row of that profile with that goal |
| ProfileSync.FromRow | frontend/src/contexts/FinancialContext.tsx:106-152 | the loaded profile keeps the row id and onboarding flag; it has an income exactly when a non-zero amount is stored; loaded entries carry no type and no createdAt |
| ProfileSync.RowId | frontend/src/contexts/FinancialContext.tsx:217 | an existing row's non-empty id wins; otherwise the local id is used |
| ProfileSync.UpsertProfileRow | frontend/src/contexts/FinancialContext.tsx:244-247 | an upsert on `id` leaves exactly the written row plus the old rows of other ids; row ids stay unique |
| ProfileSync.DeleteRow | frontend/src/contexts/FinancialContext.tsx:492 | `delete().eq("id", …)` keeps exactly the rows of other ids; unique row ids stay unique |
| ProfileSync.GoalsToDelete | frontend/src/contexts/FinancialContext.tsx:279-287 | the deleted ids are remote ids of the profile, disjoint from the local goal ids; every remote id that is kept belongs to a local goal |
| ProfileSync.KeepGoalRows | frontend/src/contexts/FinancialContext.tsx:288-293 | a goal row is kept exactly when it passes the test; unique goal ids stay unique |
| ProfileSync.DeleteGoalRows | frontend/src/contexts/FinancialContext.tsx:288-293 | a row survives exactly when its goal id is not deleted; unique goal ids stay unique |
| ProfileSync.UpsertGoalRow | frontend/src/contexts/FinancialContext.tsx:295-308 | after the upsert the goal's row is present, the other goal ids' rows are kept, nothing else is added, and goal ids stay unique |
| ProfileSync.UpsertAll | frontend/src/contexts/FinancialContext.tsx:295-308 | every local goal has its row; a row with a local goal id belongs to the profile and holds a local goal; rows of other ids are exactly the old ones |
| ProfileSync.UpsertGoalRows | frontend/src/contexts/FinancialContext.tsx:295-308 | goal ids stay unique; a batch with a repeated goal id writes nothing |
| ProfileSync.SaveRemote | frontend/src/contexts/FinancialContext.tsx:210-309 | the store stays valid; the saved profile is the snapshot with the chosen row id; its row is in the table; every row after the save is that row or an old row of another id, and every old row of another id is kept (whatever user owns it); entries are untouched |
| ProfileSync.KeepOtherSummaries | frontend/src/contexts/FinancialContext.tsx:257-260 | the summary delete leaves no row of the profile and exactly the rows of the other profiles |
| ProfileSync.SummariesOfAppend | frontend/src/contexts/FinancialContext.tsx:257-270 | reading a profile's summaries from two row lists appended gives the two readings appended |
| ProfileSync.OwnSummaryRows | frontend/src/contexts/FinancialContext.tsx:262-268 | one row per local summary, in order, tagged with the profile id |
| ProfileSync.SummariesOfOwnRows | frontend/src/contexts/FinancialContext.tsx:262-270 | the inserted summary rows read back as the local summaries |
| ProfileSync.SaveAdoptsRowId | frontend/src/contexts/FinancialContext.tsx:210-223 | when the query finds the user's single row with a non-empty id, the saved profile takes that id; otherwise it keeps its own id; a row of the user with the saved id is in the table |
| ProfileSync.SaveTakesOverRow | frontend/src/contexts/FinancialContext.tsx:210-247 | a user without a row whose local id is another user's row id overwrites that row: the other user's row is gone, replaced by this user's row, and if it was their only row they have none left |
| ProfileSync.SaveGoalsMatchLocal | frontend/src/contexts/FinancialContext.tsx:273-309 | with distinct local goal ids, the profile's remote goals after a save are exactly the local goals; the deleted ids and the upserted ids are disjoint |
| ProfileSync.RowRoundTrip | frontend/src/contexts/FinancialContext.tsx:225-237 | a written row loads back with the same id, name, onboarding flag and completeness, the save time as lastUpdated, and the income unless its amount was 0 |
| ProfileSync.SaveSummariesMatchLocal | frontend/src/contexts/FinancialContext.tsx:254-271 | a save with a non-empty summary list leaves exactly that list, in order, for the profile |
| ProfileSync.SaveThenLoad | frontend/src/contexts/FinancialContext.tsx:73-152 | for a user with at most one row, all with non-empty ids, the load query after a save finds exactly the saved row, and it loads back with id, name, income (up to the 0 amount), summaries, goals (as a set), onboarding flag, completeness and the save time |
| ProfileSync.SaveEmptySummaryKeepsRemote | frontend/src/contexts/FinancialContext.tsx:255 | saving an empty summary list leaves the remote summaries unchanged |
| ProfileSync.Load | frontend/src/contexts/FinancialContext.tsx:66-190 | a throw or no user adopts the cached profile if there is one; when `maybeSingle` finds a row it is loaded and cached; without one (no row or several) the cached profile is adopted, else a fresh empty one |
| ProfileSync.LoadStaysWithUser | frontend/src/contexts/FinancialContext.tsx:73-171 | a signed-in user adopts only a remote row of their own user id, their own cache entry or an empty profile |
| ProfileSync.FinancialProvider.constructor | frontend/src/contexts/FinancialContext.tsx:55-58 | the provider starts with an empty profile and a valid store |
| ProfileSync.FinancialProvider.CalculateDataCompleteness | frontend/src/contexts/FinancialContext.tsx:333-353 | the score of the current profile lies in 0..100 |
| ProfileSync.FinancialProvider.LoadProfile | frontend/src/contexts/FinancialContext.tsx:63-194 | nothing changes while authentication loads; otherwise the profile and cache become what `Load` decides, and a missing decision keeps the current profile |
| ProfileSync.FinancialProvider.SaveToSupabase | frontend/src/contexts/FinancialContext.tsx:197-247 | without a user only the anonymous cache entry becomes the snapshot; otherwise the user's cache entry is the snapshot with the adopted row id and the store is what `SaveRemote` leaves; the store stays valid |
| ProfileSync.FinancialProvider.PersistLatest | frontend/src/contexts/FinancialContext.tsx:322-330 | the debounced save leaves the profile as it is; without a user it writes only the anonymous cache entry; otherwise the user's cache entry and the store are what `SaveRemote` gives for the current profile |
| ProfileSync.FinancialProvider.UpdateIncome | frontend/src/contexts/FinancialContext.tsx:356-362 | only the income and lastUpdated change |
| ProfileSync.FinancialProvider.AddSpending | frontend/src/contexts/FinancialContext.tsx:365-371 | the entries become the old entries followed by the new one; only lastUpdated changes besides |
| ProfileSync.FinancialProvider.AddSpendingSummary | frontend/src/contexts/FinancialContext.tsx:374-411 | the summaries become `AddToSummary` of the old ones; unique categories stay unique; completeness does not drop |
| ProfileSync.FinancialProvider.UpdateSpendingSummary | frontend/src/contexts/FinancialContext.tsx:414-420 | the summaries are replaced; only lastUpdated changes besides |
| ProfileSync.FinancialProvider.AddGoal | frontend/src/contexts/FinancialContext.tsx:423-429 | the goal is appended; only lastUpdated changes besides |
| ProfileSync.FinancialProvider.UpdateGoal | frontend/src/contexts/FinancialContext.tsx:432-441 | the goals become `UpdateGoals` of the old ones; only lastUpdated changes besides |
| ProfileSync.FinancialProvider.DeleteGoal | frontend/src/contexts/FinancialContext.tsx:444-450 | no goal with the id remains; the goals become `RemoveGoal` of the old ones |
| ProfileSync.FinancialProvider.MergeUploadedData | frontend/src/contexts/FinancialContext.tsx:453-459 | the entries become the old entries followed by the uploaded ones; only lastUpdated changes besides |
| ProfileSync.FinancialProvider.SetUserName | frontend/src/contexts/FinancialContext.tsx:475-481 | only the name and lastUpdated change |
| ProfileSync.FinancialProvider.CompleteOnboarding | frontend/src/contexts/FinancialContext.tsx:462-472 | the flag is set in the profile and in the user's cache entry; without a user only the anonymous entry is written; for a signed-in user the store is what `SaveRemote` gives for the new profile, and a row of that user with the flag set is in the table |
| ProfileSync.FinancialProvider.ResetProfile | frontend/src/contexts/FinancialContext.tsx:484-497 | the profile is a fresh empty one; the user's cache key is removed; the profile table is `DeleteRow` of the old profile id, so a row survives exactly when its id differs; the other tables are unchanged |
| ProfileOps.AddToSummary | frontend/src/contexts/FinancialContext.tsx:380-407 | with the category present: same length, its row gains the amount and one transaction, the others are unchanged; otherwise one row {category, amount, confidence, 1} is appended; unique categories stay unique |
| ProfileOps.AddToSummaryTwice | frontend/src/contexts/FinancialContext.tsx:380-407 | two additions to a new category give one row with both amounts, a count of 2 and the first confidence |
| ProfileOps.UpdateGoals | frontend/src/contexts/FinancialContext.tsx:436 | same length and order; goals with the id are merged with the update, the others are unchanged; an absent id changes nothing |
| ProfileOps.RemoveGoal | frontend/src/contexts/FinancialContext.tsx:447 | no goal with the id remains; a goal is kept exactly when its id differs; an absent id changes nothing |
| ProfileOps.RemoveGoalIdempotent | frontend/src/contexts/FinancialContext.tsx:447 | deleting the same id twice equals deleting it once |
| ProfileOps.RemoveGoalAppend | frontend/src/contexts/FinancialContext.tsx:447 | the delete works piecewise over an append, so the kept goals stay in order |
| ProfileOps.DataCompleteness | frontend/src/contexts/FinancialContext.tsx:333-353 | the score lies in 0..100; it is 100 exactly with an income, at least 5 summaries, a goal and a name; it is 0 exactly with none of them |
| ProfileOps.CompletenessGrowsWithSummary | frontend/src/contexts/FinancialContext.tsx:343-348 | adding to the summary never lowers the score |
| ProfileOps.CompletenessIncomeAndTwoCategories | frontend/src/contexts/FinancialContext.tsx:333-353 | an income plus two summary categories, and nothing else, scores 46 |
| Domain.EmptyProfile | frontend/src/contexts/FinancialContext.tsx:168 | a fresh profile has no name, income, entries, summaries or goals, and has not completed onboarding |
| Categorize.FlattenSnoc | frontend/src/actions/ai-categorize.ts:31-33 | flattening after one more batch appends that batch |
| Categorize.MakeBatches | frontend/src/actions/ai-categorize.ts:29-33 | ceil(n/20) batches, each of 1 to 20 items, each the next slice of the input, together the whole input in order |
| Categorize.Fallback | frontend/src/actions/ai-categorize.ts:110-117 | the stand-in keeps the transaction's id and has an allowed category |
| Categorize.Fallbacks | frontend/src/actions/ai-categorize.ts:110-117 | a failed batch gives exactly one fallback per item, in order |
| Categorize.BatchResults | frontend/src/actions/ai-categorize.ts:37-118 | a failed batch contributes its fallbacks; a replying batch contributes its reply |
| Categorize.CollectResults | frontend/src/actions/ai-categorize.ts:35-119 | the results are the batches' contributions in batch order; when every batch fails they are the fallbacks of the whole input |
| Categorize.AllFailedGathered | frontend/src/actions/ai-categorize.ts:107-117 | when every batch fails, the first n batches give the fallbacks of their items |
| Categorize.FindById | frontend/src/actions/ai-categorize.ts:151 | nothing is found exactly when no result has the id; otherwise the first result with the id is found |
| Categorize.Validated | frontend/src/actions/ai-categorize.ts:154-157 | the category is always allowed: an allowed one is kept, anything else becomes "other" |
| Categorize.Reconcile | frontend/src/actions/ai-categorize.ts:150-167 | one output per input, in input order, with the input's id and an allowed category; an unmatched input gets its fallback, a matched one the first match with a validated category |
| Categorize.ReconcileFallbacks | frontend/src/actions/ai-categorize.ts:150-167 | with distinct input ids and every batch failed, each input gets its own fallback |
| Categorize.ReconcileDuplicateIds | frontend/src/actions/ai-categorize.ts:151 | with a repeated input id the first transaction's result is used for both |
| Categorize.CategorizeTransactions | frontend/src/actions/ai-categorize.ts:21-168 | empty input gives an empty result and asks nothing; the batches asked are ceil(n/20) slices of 1 to 20 that make up the input; the output keeps the length, the ids and allowed categories; all-failed with distinct ids gives the fallbacks |
| Report.MonthlyTransactions | frontend/src/lib/report-generator.ts:41-45 | the kept entries are exactly the entries dated (parsably) in that month and year, each kept as often as it occurs |
| Report.IncomeTransactions | frontend/src/lib/report-generator.ts:47-49 | exactly the income-typed entries, each as often as it occurs |
| Report.ExpenseTransactions | frontend/src/lib/report-generator.ts:50-52 | exactly the expense-typed entries, each as often as it occurs |
| Report.IncomeExpenseDisjoint | frontend/src/lib/report-generator.ts:47-52 | income and expenses share no entry; transfers and untyped entries are in neither |
| Report.Total | frontend/src/lib/report-generator.ts:54-58 | a sum of non-negative amounts is non-negative |
| Report.SavingsRate | frontend/src/lib/report-generator.ts:59-60 | the rate is 0 without income; otherwise rate × income = net savings × 100 |
| Report.SavingsRateAtMost100 | frontend/src/lib/report-generator.ts:59-60 | with non-negative expenses the savings rate is at most 100 |
| Report.ExpenseBarWidth | frontend/src/lib/report-generator.ts:170-172 | the bar never exceeds the full width; it is 0 without income; with income it is non-negative for non-negative expenses, width × income = expense × full width while expenses do not exceed income, and the full width once they do |
| Report.ScaledRatio | frontend/src/lib/report-generator.ts:170-172 | (expense / income) × width scales back to expense × width, reaches the width once expense reaches income, and stays within 0..width below that |
| Report.EffectiveCategory | frontend/src/lib/report-generator.ts:195 | an entry always counts under a non-empty category ("other" when it has none) |
| Report.CategorySumAbsent | frontend/src/lib/report-generator.ts:193-197 | a category no entry counts under totals 0 |
| Report.RowsTotalBump | frontend/src/lib/report-generator.ts:196 | adding to one row adds the same amount to the rows' total |
| Report.RowOf | frontend/src/lib/report-generator.ts:196 | the position of the category's row, or past the end exactly when there is none |
| Report.AddEntry | frontend/src/lib/report-generator.ts:196 | one `forEach` step raises the rows' total by the entry's amount and keeps categories distinct |
| Report.BumpSums | frontend/src/lib/report-generator.ts:196 | adding an entry to its category's row leaves every row holding its category's sum over the entries seen |
| Report.AddEntryKeepsTotals | frontend/src/lib/report-generator.ts:194-197 | each `forEach` step keeps the record in step with the entries seen so far |
| Report.BumpKeepsTotals | frontend/src/lib/report-generator.ts:196 | adding to an existing category row keeps the record in step |
| Report.AppendKeepsTotals | frontend/src/lib/report-generator.ts:196 | opening a row for a new category keeps the record in step |
| Report.CategoryTotals | frontend/src/lib/report-generator.ts:193-197 | one row per category that occurs, each holding that category's sum, all categories non-empty, the rows summing to the expense total |
| Report.CategoryRows | frontend/src/lib/report-generator.ts:199-200 | the sorted rows are a permutation of the category totals |
| Report.CategoryRowsOrdered | frontend/src/lib/report-generator.ts:199-200 | category rows appear in non-increasing amount order |
| Report.RowsTotalPermutation | frontend/src/lib/report-generator.ts:199-200 | reordering the rows keeps their total |
| Report.TotalsOfPermutation | frontend/src/lib/report-generator.ts:199-200 | reordering category rows keeps every row equal to its category's sum and keeps the set of categories |
| Report.DistinctPermutation | frontend/src/lib/report-generator.ts:199-200 | reordering rows with distinct categories keeps them distinct |
| Report.DistinctOnce | frontend/src/lib/report-generator.ts:193-197 | rows with distinct categories hold each row at most once |
| Report.CategoryShare | frontend/src/lib/report-generator.ts:204 | the share is 0 without expenses; with expenses share × total = amount × 100, so a row within the total has a share in 0..100 |
| Report.CategoryBreakdown | frontend/src/lib/report-generator.ts:193-204 | the table rows hold each category's sum, distinct, totalling the expenses, in non-increasing order; one percentage per row, its `CategoryShare`, within 0..100 for non-negative amounts |
| Report.RowSharesBounded | frontend/src/lib/report-generator.ts:204 | rows holding category sums of non-negative entries each take a share in 0..100 of the total |
| Report.RowsBelowTotal | frontend/src/lib/report-generator.ts:193-204 | for rows of non-negative amounts the total is non-negative and no row exceeds it |
| Report.CategorySumNonNegative | frontend/src/lib/report-generator.ts:194-197 | a category sum of non-negative amounts is non-negative |
| Report.MonthExpensesNonNegative | frontend/src/lib/report-generator.ts:41-52 | when every amount of the profile is non-negative, so is every amount of the month's expenses |
| Report.TopExpenses | frontend/src/lib/report-generator.ts:242-244 | exactly min(15, n) entries, drawn from the expenses, all of them when there are at most 15 |
| Report.LargerExpense | frontend/src/lib/report-generator.ts:243 | the comparator `b.amount - a.amount` lets a precede b exactly when it is not positive |
| Report.TopExpensesAreTop | frontend/src/lib/report-generator.ts:242-244 | the top expenses are in non-increasing amount order and no expense left out is larger than one shown |
| Report.TopExpensesFromMonth | frontend/src/lib/report-generator.ts:41-52 | every top expense is an expense of the profile dated in that month |
| Report.GenerateMonthlyFigures | frontend/src/lib/report-generator.ts:41-244 | the totals are the income and expense sums of the month; net = income − expense; the rate and bar are `SavingsRate` and `ExpenseBarWidth` of them; each category row holds its category's sum over the month's expenses, the rows sum to the expense total in non-increasing order; each row's percentage is its `CategoryShare` of the expense total, within 0..100 when the profile's amounts are non-negative; the top expenses are `TopExpenses` of the month's expenses, at most 15, all expenses of that month |
| Budget.Select | frontend/src/components/dashboard/BudgetProgress.tsx:32-33 | the kept summaries are exactly those whose category is (or is not) budgeted |
| Budget.SelectPartition | frontend/src/components/dashboard/BudgetProgress.tsx:31-34 | the unbudgeted and budgeted selections split the summary total |
| Budget.UnbudgetedSpending | frontend/src/components/dashboard/BudgetProgress.tsx:30-34 | unbudgeted plus budgeted spending is the whole summary total |
| Budget.BudgetedSpending | frontend/src/components/dashboard/BudgetProgress.tsx:31-34 | with no summary category budgeted, budgeted spending is 0 |
| Budget.AllBudgetedNothingLeft | frontend/src/components/dashboard/BudgetProgress.tsx:31-34 | unbudgeted spending is 0 when every summary category has a budget |
| Budget.Usage | frontend/src/components/dashboard/BudgetProgress.tsx:39 | for a finite non-zero limit the usage is spent / limit |
| Budget.DisplayBudgets | frontend/src/components/dashboard/BudgetProgress.tsx:37-41 | outside preview the budgets are shown as given; in preview exactly min(3, n), drawn from the budgets, all of them when there are at most 3 |
| Budget.MoreUsedByRatio | frontend/src/components/dashboard/BudgetProgress.tsx:39 | with positive limits the comparator orders by usage ratio |
| Budget.MoreUsedPreorder | frontend/src/components/dashboard/BudgetProgress.tsx:39 | with positive limits the comparator is a total preorder, the ratio order |
| Budget.MoreUsedRatios | frontend/src/components/dashboard/BudgetProgress.tsx:39 | with positive limits, over a whole list the comparator says "may precede" exactly for a usage ratio at least as high |
| Budget.PreviewByComparator | frontend/src/components/dashboard/BudgetProgress.tsx:37-41 | with positive limits the preview is drawn from the budgets, ordered by the comparator, and each budget shown may precede every budget left out |
| Budget.PreviewMostUsed | frontend/src/components/dashboard/BudgetProgress.tsx:37-41 | with positive limits the preview is ordered by usage, highest first, and no budget left out is more used than one shown |
| Budget.Percentage | frontend/src/components/dashboard/BudgetProgress.tsx:121 | the bar never exceeds 100; for a positive limit it is a finite value at most 100 |
| Budget.IsOverBudget | frontend/src/components/dashboard/BudgetProgress.tsx:122 | over budget exactly when spent exceeds a finite limit, or the limit is minus infinity; never for a NaN or infinite limit |
| Budget.IsWarning | frontend/src/components/dashboard/BudgetProgress.tsx:123 | a warning needs a finite non-zero limit that spent does not exceed |
| Budget.StatusExclusive | frontend/src/components/dashboard/BudgetProgress.tsx:122-123 | over budget and warning never hold together; a warning needs a percentage above 85 |
| Budget.PercentageOfPositiveLimit | frontend/src/components/dashboard/BudgetProgress.tsx:121 | for a positive limit the bar is the usage in percent, capped at 100 |
| Budget.RatioAboveOne | frontend/src/components/dashboard/BudgetProgress.tsx:121-123 | for a positive limit, usage above 1 means spent above the limit, and usage above 85 % means 85·limit < 100·spent |
| Budget.StatusBands | frontend/src/components/dashboard/BudgetProgress.tsx:121-123 | for a positive limit: over budget exactly when spent exceeds the limit, then a full bar; warning exactly when 85 % < spent/limit and spent does not exceed the limit |
| Budget.NumberOf | frontend/src/components/dashboard/BudgetProgress.tsx:234 | the conversion gives a finite number or NaN; a string of digits gives its value |
| Budget.NewBudget | frontend/src/components/dashboard/BudgetProgress.tsx:227-239 | an empty limit adds nothing; otherwise a monthly budget with nothing spent, the given id and category, and the limit parsed from the digits, dots and minus signs only |
| Budget.NewBudgetFromGrouped | frontend/src/components/dashboard/BudgetProgress.tsx:234 | a limit typed with thousands separators gives that whole number |
| Budget.NewBudgetWithoutDigits | frontend/src/components/dashboard/BudgetProgress.tsx:229-234 | a limit with no digits is accepted as 0, and the bar is then NaN and shows no warning |
| Trend.NormalizedIncome | frontend/src/components/dashboard/TrendChart.tsx:49-51 | no income gives 0; monthly as is; weekly × 4.33; yearly ÷ 12 |
| Trend.MonthsBack | frontend/src/components/dashboard/TrendChart.tsx:54-56 | the result is a month 0-11, exactly `back` months before the given one |
| Trend.MonthsBackNone | frontend/src/components/dashboard/TrendChart.tsx:54-56 | zero months back is the given month |
| Trend.MonthsBackStep | frontend/src/components/dashboard/TrendChart.tsx:53-56 | different offsets give different months; one more offset is the previous month, rolling January back to December of the year before |
| Trend.MonthsBackRollover | frontend/src/components/dashboard/TrendChart.tsx:54-56 | from February 2024: one back is January 2024, two back is December 2023, five back is September 2023 |
| Trend.TrendDate | frontend/src/components/dashboard/TrendChart.tsx:62-63 | an entry has a trend date exactly when it has a date or a createdAt; the date comes first |
| Trend.InBucket | frontend/src/components/dashboard/TrendChart.tsx:61-69 | only an expense whose trend date parses to that month and year counts |
| Trend.MonthlySpend | frontend/src/components/dashboard/TrendChart.tsx:60-70 | non-negative amounts give a non-negative month total |
| Trend.BucketAt | frontend/src/components/dashboard/TrendChart.tsx:53-76 | the bucket `back` months before is a month 0-11 exactly that many months earlier, with the given budget |
| Trend.MonthlySpendEmpty | frontend/src/components/dashboard/TrendChart.tsx:60-70 | a month with no expense entry dated in it spends 0 |
| Trend.OneBucketPerEntry | frontend/src/components/dashboard/TrendChart.tsx:60-70 | an entry counts in at most one bucket |
| Trend.TrendData | frontend/src/components/dashboard/TrendChart.tsx:45-79 | exactly 6 buckets, oldest first, consecutive months ending at the current month; each bucket holds the rounded sum of that month's expenses; every bucket has the same budget, the rounded normalised income; the chart has data exactly when some bucket spends more than 0 |
| Trend.NoSpendNoData | frontend/src/components/dashboard/TrendChart.tsx:79-81 | with no expense dated in the six months every bucket spends 0, so the empty state shows |
| Activity.RecentTransactions | frontend/src/components/dashboard/RecentActivityFeed.tsx:115-126 | exactly min(5, n) entries, all from the profile's entries, all of them when there are at most 5 |
| Activity.FeedKey | frontend/src/components/dashboard/RecentActivityFeed.tsx:117-118 | an entry has a feed date exactly when it has a createdAt or a date; createdAt comes first |
| Activity.FeedBefore | frontend/src/components/dashboard/RecentActivityFeed.tsx:116-125 | a dated entry precedes an undated one, never the reverse, and two undated entries tie |
| Activity.InsertKeepsDatedFirst | frontend/src/components/dashboard/RecentActivityFeed.tsx:116-125 | inserting one entry keeps undated entries behind dated ones |
| Activity.SortKeepsDatedFirst | frontend/src/components/dashboard/RecentActivityFeed.tsx:120-122 | after the sort no undated entry precedes a dated one, whatever the dates are |
| Activity.FeedPreorder | frontend/src/components/dashboard/RecentActivityFeed.tsx:116-125 | when every date parses, the comparator is a total preorder that puts later timestamps first |
| Activity.FeedNewestFirst | frontend/src/components/dashboard/RecentActivityFeed.tsx:115-126 | when every date parses, the feed lists dated entries newest first (by createdAt, else date), then undated ones, and no entry left out is newer than one shown |
| Activity.Sign | frontend/src/components/dashboard/RecentActivityFeed.tsx:25-26 | the sign is "+" exactly for an income entry, "-" otherwise |
| Activity.Magnitude | frontend/src/components/dashboard/RecentActivityFeed.tsx:88 | the shown amount is the absolute value |
| Activity.SignMagnitudeRecovers | frontend/src/components/dashboard/RecentActivityFeed.tsx:88 | for an entry stored as a non-negative amount, sign and magnitude give back the signed amount |
| Activity.DisplayDate | frontend/src/components/dashboard/RecentActivityFeed.tsx:63 | "Recent" exactly without createdAt and date; otherwise the createdAt, else the date |
| IncomeInput.DigitPrefix | frontend/src/components/onboarding/StepIncome.tsx:60 | the digits `parseInt` reads: the longest run of digits at the start |
| IncomeInput.DigitPrefixAll | frontend/src/components/onboarding/StepIncome.tsx:60 | a string of digits is read entirely |
| IncomeInput.ParseInt | frontend/src/components/onboarding/StepIncome.tsx:60 | `parseInt` of a blank text is NaN; of a non-empty string of digits, its value |
| IncomeInput.ParseIntDecimal | frontend/src/components/onboarding/StepIncome.tsx:60 | `parseInt` reads back the decimal spelling of a natural number |
| IncomeInput.HandleChange | frontend/src/components/onboarding/StepIncome.tsx:52-62 | the stored value is empty exactly when no digit was typed, and holds only digits and separators |
| IncomeInput.Submit | frontend/src/components/onboarding/StepIncome.tsx:64-70 | an amount is submitted only when it is above 0, and it is the parse of the value with separators removed |
| IncomeInput.SubmitAfterChange | frontend/src/components/onboarding/StepIncome.tsx:60-66 | formatting then stripping and parsing round-trips: the submitted amount is the number formed by the typed digits, when positive |
| IncomeInput.InitialText | frontend/src/components/onboarding/StepIncome.tsx:31-36 | a non-zero initial value fills the field, and submitting it gives that value back |
| IncomeInput.InitialCurrency | frontend/src/components/onboarding/StepIncome.tsx:22-24 | the given currency, else the default |
| Sidebar.DisplayName | frontend/src/components/layout/Sidebar.tsx:36-40 | profile name, else full name, else the email before "@", else "User"; never empty |
| Sidebar.NameOf | frontend/src/components/layout/Sidebar.tsx:44 | the name is empty exactly when both the profile name and the full name are |
| Sidebar.FirstChar | frontend/src/components/layout/Sidebar.tsx:48 | a non-empty word gives its first character |
| Sidebar.Initials | frontend/src/components/layout/Sidebar.tsx:43-55 | the initials are never empty |
| Sidebar.InitialsCases | frontend/src/components/layout/Sidebar.tsx:43-55 | two words give their first letters upper-cased; one word its first two letters; no name the email's first two letters; nothing at all "U"; the profile name comes first |
| Sidebar.SplitDoubleSpace | frontend/src/components/layout/Sidebar.tsx:46 | two words with a doubled space split into the first word, an empty piece and the second word |
| Sidebar.InitialsDoubleSpace | frontend/src/components/layout/Sidebar.tsx:46-48 | a doubled space puts "UNDEFINED" after the first initial |
| Sidebar.Words | frontend/src/components/layout/Sidebar.tsx:46 | the words are the non-empty pieces; without empty pieces they are all the pieces |
| Sidebar.InitialsOfWords | frontend/src/components/layout/Sidebar.tsx:43-55 | the corrected initials are one or two characters |
| Sidebar.InitialsAgree | frontend/src/components/layout/Sidebar.tsx:43-55 | where the name has no empty word, the corrected initials equal the original ones |
| Sidebar.InitialsOfWordsDoubleSpace | frontend/src/components/layout/Sidebar.tsx:46-48 | the corrected initials of a double-spaced name are the two words' first letters |
| Onboarding.SplitRuns | frontend/src/actions/onboarding.ts:29 | at least one piece, and no piece holds `.`, `!` or `?` |
| Onboarding.SplitRunsStep | frontend/src/actions/onboarding.ts:29 | a piece, one terminator and a rest not starting with one split into that piece followed by the split of the rest |
| Onboarding.Fragments | frontend/src/actions/onboarding.ts:29 | the kept pieces are non-blank pieces of the split |
| Onboarding.Sentences | frontend/src/actions/onboarding.ts:29 | every sentence is non-blank and holds no terminator |
| Onboarding.Truncate | frontend/src/actions/onboarding.ts:29-34 | with at most two sentences the response is returned unchanged; otherwise the result ends with "." |
| Onboarding.AnswerGeneralQuestion | frontend/src/actions/onboarding.ts:9-38 | a failed call gives the fixed fallback; a reply of at most two sentences is returned trimmed |
| Onboarding.TrimJoined | frontend/src/actions/onboarding.ts:31 | trimming two non-blank sentences joined by ". " trims only the outer ends |
| Onboarding.TwoSentences | frontend/src/actions/onboarding.ts:31 | two non-blank sentences, each closed by ".", read back as those two |
| Onboarding.SplitTwo | frontend/src/actions/onboarding.ts:29 | two terminator-free pieces each closed by "." split into those two pieces and an empty tail |
| Onboarding.FragmentsTwo | frontend/src/actions/onboarding.ts:29 | the empty tail after two non-blank pieces is dropped |
| Onboarding.TruncatedForm | frontend/src/actions/onboarding.ts:31 | a cut answer is the first sentence trimmed at its start, ".", a space, the second sentence trimmed at its end, and "." |
| Onboarding.TruncatedSentences | frontend/src/actions/onboarding.ts:29-32 | the sentences of a cut answer are the reply's first two sentences, trimmed at the outer ends |
| Onboarding.AtMostTwoSentences | frontend/src/actions/onboarding.ts:28-32 | the truncated answer never has more than two sentences |
| Onboarding.TruncateIdempotent | frontend/src/actions/onboarding.ts:29-34 | truncating a truncated answer changes nothing |
| Onboarding.SentencePair | frontend/src/actions/onboarding.ts:29 | two non-blank sentences around one terminator read back as those two |
| Onboarding.FallbackSentences | frontend/src/actions/onboarding.ts:37 | the fallback reads as two sentences |
| Onboarding.AnswerAtMostTwoSentences | frontend/src/actions/onboarding.ts:9-38 | every answer, the fallback included, has at most two sentences |
| Text.Keep | frontend/src/components/onboarding/StepIncome.tsx:54 | the filter keeps only accepted characters and never lengthens the text |
| Text.KeepAgree | frontend/src/components/dashboard/BudgetProgress.tsx:234 | two filters that agree on every character keep the same text |
| Text.Grouped | frontend/src/components/onboarding/StepIncome.tsx:61 | the grouped form is non-empty, made of digits and commas, and starts with a non-zero digit unless the number is 0 |
| Text.UngroupGrouped | frontend/src/components/onboarding/StepIncome.tsx:66 | removing the commas from the grouped form gives the plain decimal spelling |
| Text.ValueOfDecimalString | frontend/src/components/onboarding/StepIncome.tsx:60 | the value of a number's decimal spelling is that number |
| Text.TrimStart | frontend/src/actions/onboarding.ts:26 | only a blank prefix is removed, and the rest starts with a non-space |
| Text.TrimEnd | frontend/src/actions/onboarding.ts:26 | only a blank suffix is removed, and the rest ends with a non-space |
| Text.Trim | frontend/src/actions/onboarding.ts:26 | the trimmed text starts and ends with a non-space, and is empty exactly when the text is blank |
| Text.TrimStartAppend | frontend/src/actions/onboarding.ts:31 | text after a non-blank start is untouched by trimming the start |
| Text.TrimEndAppend | frontend/src/actions/onboarding.ts:31 | text before a non-blank end is untouched by trimming the end |
| Text.SplitOn | frontend/src/components/layout/Sidebar.tsx:46 | at least one piece, and no piece holds the separator |
| Text.JoinSplitOn | frontend/src/components/layout/Sidebar.tsx:46 | joining the pieces with the separator gives the text back |
| Text.Upper | frontend/src/components/layout/Sidebar.tsx:48 | same length, each character upper-cased |
| Text.Prefix | frontend/src/components/layout/Sidebar.tsx:49 | the first n characters, or all of a shorter text |
| Lists.Filter | frontend/src/lib/report-generator.ts:47-52 | the kept elements are exactly the elements satisfying the predicate, a sub-multiset of the input |
| Lists.FilterCount | frontend/src/lib/report-generator.ts:47-52 | a kept element occurs as often as in the input; a rejected one not at all |
| Lists.FilterCounts | frontend/src/lib/report-generator.ts:47-52 | the count of every element after filtering is its input count when kept, else 0 |
| Lists.FilterAppend | frontend/src/lib/report-generator.ts:41-52 | filtering works piecewise over an append, so the kept elements keep their order |
| Lists.Take | frontend/src/lib/report-generator.ts:244 | the first k elements, or all of a shorter sequence |
| Sorting.SortBy | frontend/src/lib/report-generator.ts:243 | the sorted sequence is a permutation of the input |
| Sorting.InsertSorted | frontend/src/lib/report-generator.ts:243 | inserting into a sorted sequence under a total preorder keeps it sorted |
| Sorting.SortBySorted | frontend/src/lib/report-generator.ts:243 | under a total preorder the result is sorted |
| Sorting.TakeIsTop | frontend/src/lib/report-generator.ts:242-244 | each of the first k elements of a sorted sequence comes before every element left out |
| Sorting.SortedPrefix | frontend/src/components/dashboard/BudgetProgress.tsx:37-41 | under a preorder the first k sorted elements come from the input, are sorted and may precede every element left out |
| JsNumber.Div | frontend/src/components/dashboard/BudgetProgress.tsx:121 | finite over non-zero finite is the real quotient; NaN in gives NaN out |
| JsNumber.Min | frontend/src/components/dashboard/BudgetProgress.tsx:121 | the minimum is one of the operands and above neither; NaN in gives NaN out |
| JsNumber.Round | frontend/src/components/dashboard/TrendChart.tsx:74 | the rounded value lies within half a unit, halves rounding up |

## Left out

- Network and storage failures are not modelled. A remote error payload, a failed upsert (which returns early) and a failed goal or summary write are all outside the model. The remote store is a value, and a throw during load is a boolean parameter. A query that reports an error without throwing takes the no-row branch. The model produces that branch in one case: `maybeSingle` on a user with several profile rows, which the model reads as no row. Other query errors are not modelled.
- Row-level security policies and database constraints other than the primary key on `id` are not modelled. A save whose local id is another user's row id therefore overwrites that row, as the upsert is written (`ProfileSync.SaveTakesOverRow`).
- The `catch` of `saveToSupabase` only logs, and a failed profile upsert returns early. Both are outside the model, whose store calls never fail.
- The debounce timer and the `isLoading`/`isSyncing` flags are left out. `PersistLatest` stands for the timer firing with the profile as it is at that moment.
- The in-memory profile does not adopt the remote row id on save; only the cache entry does. This follows the code, which rewrites only the cache entry.
- The cache is written only by saves and loads, not by every mutation. This also follows the code.
- The JSON round trip through the cache is taken to be lossless.
- `ResetProfile` deletes only the profile row. Any cascade of the entry, summary and goal rows is the database's and is not modelled.
- A remote row written by other code without an income confidence is outside the store invariant.
- `ProfileSync.UpsertGoalRows`: a batch naming one goal id twice is modelled as writing nothing. The real outcome depends on the database.
- Spending entries and their remote writes are not part of the save, because the save does not write them. A load drops their `type` and `createdAt`, since it does not copy them.
- `Categorize.CategorizeTransactions`: a reply element is always a record with an id. A `null` element in a reply array would make `r.id` throw inside the final `map`, outside the `try`, so the whole call would reject. The model does not capture that rejection.
- Model calls and tracing are left out. The categorisation reply, the onboarding answer and the prompt text are oracle parameters. The "no content" throw and JSON parsing fold into `Failed`.
- Date parsing and time zones are left out. A date is a `Stamp`, and a value that does not parse is `Unparsable`.
- The relative wording of the activity date ("Today", "Yesterday", "n days ago", locale dates) is left out. Only `Recent` versus a date to word is modelled.
- Locale formatting is left out. Grouping uses commas every three digits. `toFixed`, currency formatting, month names and the PDF drawing are not modelled.
- Floating point is not modelled. Amounts are exact reals, and 4.33 and the divisions are exact. `Math.round` is modelled as rounding halves up.
- `parseInt` loses precision above 2^53; the model does not.
- `Object.entries` lists integer-like keys first; the model keeps category rows in insertion order before the sort.
- Sorts are modelled as a stable insertion sort on sequences.
  - The report sorts a fresh array in place, and nothing else reads that array, so no aliasing is lost.
  - The budget preview and the activity feed sort copies, so the profile's own lists are values the model never changes.
- `Activity.FeedNewestFirst` holds only when every date parses. With an unparsable date the comparator is inconsistent, and only `SortKeepsDatedFirst` is claimed.
- `Budget.PreviewMostUsed` holds only for positive finite limits. A zero or NaN limit makes the comparator inconsistent.
- `Categorize.ReconcileFallbacks` needs distinct input ids. `ReconcileDuplicateIds` shows what happens otherwise.
- `ProfileSync.SaveGoalsMatchLocal` needs distinct local goal ids.
- `ProfileSync.SaveSummariesMatchLocal`: the summaries are read back in the order they were inserted. The load queries ask for no order, so the database may return them in any order. Without that reading the loaded list would only be a permutation of the saved one, and the model does not state that weaker form.
- `ProfileSync.SaveThenLoad`: its summary equality rests on the same reading, that a query returns the matching rows in table order.
- `ProfileSync.SaveThenLoad` is claimed only for a user with at most one profile row, whose rows have non-empty ids. With several rows `maybeSingle` finds none, so after the save the user still has several rows and the next load finds none either.
- `Text.Upper` maps only ASCII letters.
- `Sidebar.Initials`: characters are whole Unicode characters. JavaScript indexes strings by UTF-16 code units, so for a name starting with a character outside the Basic Multilingual Plane `n[0]` is a lone surrogate. The model does not capture that.
- `Text.Prefix`: takes whole characters, where `substring(0, 2)` takes two UTF-16 code units and can split a surrogate pair.
- `IncomeInput.InitialText` takes a natural number. A fractional or negative initial value is not modelled.
- The value of `DEFAULT_CURRENCY` is not visible in the code, so it is a parameter.
- The budgets list and the `addBudget`/`deleteBudget` actions are not part of the profile context. `Budget` is a standalone record, and the budget list is a parameter.
- The month name of a trend bucket is left out.

## Findings

| source | as written | input that shows it | evidently intended | confidence | as-written member | corrected member |
|---|---|---|---|---|---|---|
| frontend/src/components/layout/Sidebar.tsx:46-48 | the name is split on single spaces, and the first character of an empty piece renders as the text "undefined" | the name "Ada  Lovelace" (two spaces) gives "AUNDEFINED"; a leading space fails the same way | the initials of the first two words, "AL" | not executed | Sidebar.InitialsDoubleSpace | Sidebar.InitialsOfWords |
