/**
 * The records of a user's financial profile. The application's own type
 * declarations are not part of this model; these datatypes carry the fields
 * the modelled code reads and writes. Optional text fields that the code only
 * tests for truthiness (`name`, `description`, `merchantName`, `deadline`,
 * income `source`) are plain strings, "" standing for "not set".
 */
module Domain {
  import opened Wrappers

  type Id = string
  type Category = string

  datatype Confidence = High | Medium | Low
  datatype Frequency = Monthly | Weekly | Yearly
  datatype EntrySource = Manual | Upload | Estimated
  datatype EntryType = Expense | Income | Transfer

  /**
   * A date string after `new Date(...)`: either it does not parse (every
   * getter gives NaN) or it denotes a local calendar month (`getFullYear`,
   * `getMonth` in 0..11) and an instant in milliseconds (`getTime`).
   */
  datatype Stamp = Unparsable | Parsed(year: int, month: int, millis: int)

  datatype IncomeData = IncomeData(
    amount: real,
    frequency: Frequency,
    confidence: Confidence,
    isEstimate: bool,
    source: string)

  datatype SpendingEntry = SpendingEntry(
    id: Id,
    category: Category,
    amount: real,
    confidence: Confidence,
    source: EntrySource,
    description: string,
    date: Option<Stamp>,
    merchantName: string,
    entryType: Option<EntryType>,
    createdAt: Option<Stamp>)

  /** A per-category running total. */
  datatype SpendingSummary = SpendingSummary(
    category: Category,
    total: real,
    confidence: Confidence,
    transactionCount: int)

  datatype SavingsGoal = SavingsGoal(
    id: Id,
    name: string,
    target: real,
    current: real,
    deadline: string,
    priority: Confidence,
    createdAt: string)

  datatype Profile = Profile(
    id: Id,
    name: string,
    income: Option<IncomeData>,
    monthlySpending: seq<SpendingEntry>,
    spendingSummary: seq<SpendingSummary>,
    goals: seq<SavingsGoal>,
    hasCompletedOnboarding: bool,
    lastUpdated: string,
    dataCompleteness: int)

  /** A fresh profile: nothing known yet, onboarding not done. */
  function EmptyProfile(id: Id, now: string): (p: Profile)
    ensures p.id == id && p.lastUpdated == now
    ensures p.name == "" && p.income == None && !p.hasCompletedOnboarding
    ensures p.monthlySpending == [] && p.spendingSummary == [] && p.goals == []
  {
    Profile(id, "", None, [], [], [], false, now, 0)
  }
}
