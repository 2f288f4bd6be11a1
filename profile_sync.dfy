/**
 * The financial profile provider: one in-memory profile, a per-user local
 * cache and a remote row store, with the load and save procedures that move
 * the profile between them and the named mutations.
 *
 * The remote store is a value: the profiles table as a sequence of rows whose
 * primary key is the row id (a user's row is found through its user id), the
 * spending entries of each profile, and the summary and goal tables as
 * sequences of rows. A query is read as returning the matching rows in table
 * order, although the queries ask for no order. The local cache maps storage
 * keys to profiles (the JSON round trip is taken to be lossless). Clock
 * readings, fresh ids and whether a remote call threw are parameters.
 */
module ProfileSync {
  import opened Wrappers
  import opened Domain
  import opened ProfileOps

  // ------------------------------------------------------------ storage key

  const KeyPrefix: string := "finresolve-profile-"
  const AnonymousKey: string := KeyPrefix + "anonymous"

  /** `getStorageKey`: a user's own cache key, or the anonymous bucket. */
  function StorageKey(userId: Option<Id>): (k: string)
    ensures userId.Some? && userId.value != "" ==> k == KeyPrefix + userId.value
    ensures userId.None? || userId.value == "" ==> k == AnonymousKey
  {
    if userId.Some? && userId.value != "" then KeyPrefix + userId.value else AnonymousKey
  }

  /** Distinct non-empty user ids never share a cache key. */
  lemma StorageKeyInjective(a: Id, b: Id)
    requires a != "" && b != "" && a != b
    ensures StorageKey(Some(a)) != StorageKey(Some(b))
  {
    var ka, kb := StorageKey(Some(a)), StorageKey(Some(b));
    assert ka[|KeyPrefix|..] == a && kb[|KeyPrefix|..] == b;
  }

  /** The one collision: a user whose id is "anonymous" shares the anonymous bucket. */
  lemma StorageKeyAnonymousCollision()
    ensures StorageKey(Some("anonymous")) == StorageKey(None)
    ensures forall id: Id :: id != "" && StorageKey(Some(id)) == StorageKey(None) ==> id == "anonymous"
  {
    forall id: Id | id != "" && StorageKey(Some(id)) == StorageKey(None) ensures id == "anonymous" {
      assert StorageKey(Some(id))[|KeyPrefix|..] == id;
      assert AnonymousKey[|KeyPrefix|..] == "anonymous";
    }
  }

  // ------------------------------------------------------------ remote rows

  /** A row of the profiles table. */
  datatype ProfileRow = ProfileRow(
    id: Id,
    userId: Id,
    name: Option<string>,
    incomeAmount: Option<real>,
    incomeConfidence: Option<Confidence>,
    incomeIsEstimate: bool,
    incomeFrequency: Frequency,
    incomeSource: Option<string>,
    hasCompletedOnboarding: bool,
    dataCompleteness: int,
    updatedAt: string)

  datatype SummaryRow = SummaryRow(profileId: Id, summary: SpendingSummary)
  datatype GoalRow = GoalRow(profileId: Id, goal: SavingsGoal)

  datatype RemoteStore = RemoteStore(
    profiles: seq<ProfileRow>,
    entries: map<Id, seq<SpendingEntry>>,
    summaries: seq<SummaryRow>,
    goals: seq<GoalRow>)

  /** A stored income amount comes with its confidence. */
  predicate RowWellFormed(row: ProfileRow) {
    row.incomeAmount.Some? ==> row.incomeConfidence.Some?
  }

  /** Goal ids are the goal table's primary key. */
  predicate GoalIdsUnique(rows: seq<GoalRow>) {
    forall i, j :: 0 <= i < j < |rows| ==> rows[i].goal.id != rows[j].goal.id
  }

  /** Row ids are the profiles table's primary key. */
  predicate RowIdsUnique(rows: seq<ProfileRow>) {
    forall i, j :: 0 <= i < j < |rows| ==> rows[i].id != rows[j].id
  }

  predicate StoreValid(s: RemoteStore) {
    && RowIdsUnique(s.profiles)
    && (forall x :: x in s.profiles ==> RowWellFormed(x))
    && GoalIdsUnique(s.goals)
  }

  /** The profile rows that satisfy `keep`, in table order. */
  function KeepRows(rows: seq<ProfileRow>, keep: ProfileRow -> bool): (r: seq<ProfileRow>)
    ensures forall x :: x in r <==> x in rows && keep(x)
    ensures RowIdsUnique(rows) ==> RowIdsUnique(r)
  {
    if rows == [] then []
    else
      var rest := KeepRows(rows[1..], keep);
      assert forall x :: x in rows <==> x == rows[0] || x in rows[1..];
      var r := (if keep(rows[0]) then [rows[0]] else []) + rest;
      assert RowIdsUnique(rows) ==> RowIdsUnique(r) by {
        if RowIdsUnique(rows) && keep(rows[0]) {
          forall k | 0 <= k < |rest| ensures rest[k].id != rows[0].id {
            assert rest[k] in rows[1..];
            var m :| 0 <= m < |rows[1..]| && rows[1..][m] == rest[k];
            assert rows[m + 1] == rest[k];
          }
        }
      }
      r
  }

  /** The rows of one user (`.eq("user_id", userId)`). */
  function RowsOfUser(rows: seq<ProfileRow>, userId: Id): (r: seq<ProfileRow>)
    ensures forall x :: x in r <==> x in rows && x.userId == userId
    ensures RowIdsUnique(rows) ==> RowIdsUnique(r)
  {
    KeepRows(rows, (x: ProfileRow) => x.userId == userId)
  }

  /** The profiles delete by row id (`.eq("id", id)`). */
  function DeleteRow(rows: seq<ProfileRow>, id: Id): (r: seq<ProfileRow>)
    ensures forall x :: x in r <==> x in rows && x.id != id
    ensures RowIdsUnique(rows) ==> RowIdsUnique(r)
  {
    KeepRows(rows, (x: ProfileRow) => x.id != id)
  }

  /**
   * `.eq("user_id", userId).maybeSingle()`: the user's row when there is
   * exactly one. With none there is no data, and with several the query
   * reports an error and again returns no data.
   */
  function UserRow(rows: seq<ProfileRow>, userId: Id): (r: Option<ProfileRow>)
    ensures r.None? <==> |RowsOfUser(rows, userId)| != 1
    ensures r.Some? ==> r.value in rows && r.value.userId == userId
    ensures r.Some? ==> forall x :: x in rows && x.userId == userId ==> x == r.value
  {
    var mine := RowsOfUser(rows, userId);
    if |mine| == 1 then
      assert mine[0] in mine;
      Some(mine[0])
    else None
  }

  /** Keeping none of the rows leaves nothing. */
  lemma {:induction false} KeepNone(rows: seq<ProfileRow>, keep: ProfileRow -> bool)
    requires forall x :: x in rows ==> !keep(x)
    ensures KeepRows(rows, keep) == []
  {
    if rows != [] {
      assert rows[0] in rows;
      KeepNone(rows[1..], keep);
    }
  }

  /** In a table with unique ids, a user whose rows are all `row` has exactly that row. */
  lemma {:induction false} OnlyRow(rows: seq<ProfileRow>, userId: Id, row: ProfileRow)
    requires RowIdsUnique(rows) && row in rows && row.userId == userId
    requires forall x :: x in rows && x.userId == userId ==> x == row
    ensures RowsOfUser(rows, userId) == [row]
    ensures UserRow(rows, userId) == Some(row)
  {
    var h, t := rows[0], rows[1..];
    assert forall x :: x in rows <==> x == h || x in t;
    if h.userId == userId {
      forall x | x in t ensures x.userId != userId {
        var k :| 0 <= k < |t| && t[k] == x;
        assert rows[k + 1] == x;
      }
      KeepNone(t, (x: ProfileRow) => x.userId == userId);
    } else {
      assert RowIdsUnique(t) by {
        forall i, j | 0 <= i < j < |t| ensures t[i].id != t[j].id {
          assert t[i] == rows[i + 1] && t[j] == rows[j + 1];
        }
      }
      OnlyRow(t, userId, row);
    }
  }

  function NullIfEmpty(s: string): (r: Option<string>)
    ensures r.GetOr("") == s
  {
    if s == "" then None else Some(s)
  }

  /** The income a save followed by a load gives back: an amount of 0 is stored as null. */
  function Reloadable(income: Option<IncomeData>): Option<IncomeData> {
    if income.Some? && income.value.amount != 0.0 then income else None
  }

  /** The profiles-table row that a save writes for `p` (`profileData`). */
  function ToRow(p: Profile, profileId: Id, userId: Id, now: string): (row: ProfileRow)
    ensures row.id == profileId && row.userId == userId && RowWellFormed(row)
    ensures row.incomeAmount.Some? <==> Reloadable(p.income).Some?
  {
    var has := p.income.Some?;
    ProfileRow(
      profileId, userId, NullIfEmpty(p.name),
      if has && p.income.value.amount != 0.0 then Some(p.income.value.amount) else None,
      if has then Some(p.income.value.confidence) else None,
      has && p.income.value.isEstimate,
      if has then p.income.value.frequency else Monthly,
      if has then NullIfEmpty(p.income.value.source) else None,
      p.hasCompletedOnboarding, p.dataCompleteness, now)
  }

  /** The summary rows of one profile, in table order. */
  function SummariesOf(rows: seq<SummaryRow>, profileId: Id): (r: seq<SpendingSummary>)
    ensures |r| <= |rows|
  {
    if rows == [] then []
    else (if rows[0].profileId == profileId then [rows[0].summary] else [])
         + SummariesOf(rows[1..], profileId)
  }

  /** The goals of one profile, in table order. */
  function GoalsOf(rows: seq<GoalRow>, profileId: Id): (r: seq<SavingsGoal>)
    ensures forall g :: g in r <==> GoalRow(profileId, g) in rows
  {
    if rows == [] then []
    else
      var rest := GoalsOf(rows[1..], profileId);
      assert forall x :: x in rows <==> x == rows[0] || x in rows[1..];
      (if rows[0].profileId == profileId then [rows[0].goal] else []) + rest
  }

  /**
   * The profile a load assembles from a profiles row and its related rows.
   * Spending entries come back without their `type` and `createdAt`, which
   * the load does not copy.
   */
  function FromRow(row: ProfileRow, store: RemoteStore): (p: Profile)
    requires RowWellFormed(row)
    ensures p.id == row.id && p.hasCompletedOnboarding == row.hasCompletedOnboarding
    ensures p.income.Some? <==> row.incomeAmount.Some? && row.incomeAmount.value != 0.0
    ensures forall e :: e in p.monthlySpending ==> e.entryType.None? && e.createdAt.None?
  {
    var entries := if row.id in store.entries then store.entries[row.id] else [];
    Profile(
      row.id,
      row.name.GetOr(""),
      if row.incomeAmount.Some? && row.incomeAmount.value != 0.0 then
        Some(IncomeData(row.incomeAmount.value, row.incomeFrequency, row.incomeConfidence.value,
                        row.incomeIsEstimate, row.incomeSource.GetOr("")))
      else None,
      seq(|entries|, i requires 0 <= i < |entries| => entries[i].(entryType := None, createdAt := None)),
      SummariesOf(store.summaries, row.id),
      GoalsOf(store.goals, row.id),
      row.hasCompletedOnboarding,
      row.updatedAt,
      row.dataCompleteness)
  }

  // ------------------------------------------------------------------- save

  /** The id a save writes under: an existing row's id wins over the local one. */
  function RowId(existing: Option<ProfileRow>, localId: Id): (r: Id)
    ensures existing.Some? && existing.value.id != "" ==> r == existing.value.id
    ensures existing.None? || existing.value.id == "" ==> r == localId
  {
    if existing.Some? && existing.value.id != "" then existing.value.id else localId
  }

  function GoalIds(goals: seq<SavingsGoal>): set<Id> {
    set g | g in goals :: g.id
  }

  predicate LocalGoalIdsUnique(goals: seq<SavingsGoal>) {
    forall i, j :: 0 <= i < j < |goals| ==> goals[i].id != goals[j].id
  }

  /** Ids of the goal rows that belong to `profileId`. */
  function RemoteGoalIds(rows: seq<GoalRow>, profileId: Id): set<Id> {
    set r | r in rows && r.profileId == profileId :: r.goal.id
  }

  /** The remote goal ids a save deletes: those no longer among the local goals. */
  function GoalsToDelete(existing: set<Id>, goals: seq<SavingsGoal>): (r: set<Id>)
    ensures r <= existing && r !! GoalIds(goals)
    ensures forall id :: id in existing && id !in r ==> exists g :: g in goals && g.id == id
  {
    existing - GoalIds(goals)
  }

  /** The goal rows that satisfy `keep`, in table order. */
  function KeepGoalRows(rows: seq<GoalRow>, keep: GoalRow -> bool): (r: seq<GoalRow>)
    ensures forall x :: x in r <==> x in rows && keep(x)
    ensures GoalIdsUnique(rows) ==> GoalIdsUnique(r)
  {
    if rows == [] then []
    else
      var rest := KeepGoalRows(rows[1..], keep);
      assert forall x :: x in rows <==> x == rows[0] || x in rows[1..];
      var r := (if keep(rows[0]) then [rows[0]] else []) + rest;
      assert GoalIdsUnique(rows) ==> GoalIdsUnique(r) by {
        if GoalIdsUnique(rows) && keep(rows[0]) {
          HeadIdDiffers(rows);
          ConsIdsUnique(rows[0], rest);
        }
      }
      r
  }

  /** No later row of a table with unique goal ids shares the first row's goal id. */
  lemma HeadIdDiffers(rows: seq<GoalRow>)
    requires GoalIdsUnique(rows) && rows != []
    ensures forall x :: x in rows[1..] ==> x.goal.id != rows[0].goal.id
  {
    forall x | x in rows[1..] ensures x.goal.id != rows[0].goal.id {
      var m :| 0 <= m < |rows| - 1 && rows[1..][m] == x;
      assert rows[m + 1] == x;
    }
  }

  lemma ConsIdsUnique(h: GoalRow, rest: seq<GoalRow>)
    requires GoalIdsUnique(rest) && forall x :: x in rest ==> x.goal.id != h.goal.id
    ensures GoalIdsUnique([h] + rest)
  {
    var r := [h] + rest;
    forall i, j | 0 <= i < j < |r| ensures r[i].goal.id != r[j].goal.id {
      assert r[j] == rest[j - 1];
      if i > 0 {
        assert r[i] == rest[i - 1];
      }
    }
  }

  /** The goals delete: the rows whose goal id is not among `ids`. */
  function DeleteGoalRows(rows: seq<GoalRow>, ids: set<Id>): (r: seq<GoalRow>)
    ensures forall x :: x in r <==> x in rows && x.goal.id !in ids
    ensures GoalIdsUnique(rows) ==> GoalIdsUnique(r)
  {
    KeepGoalRows(rows, (x: GoalRow) => x.goal.id !in ids)
  }

  /** Insert-or-update one goal row by goal id. */
  function UpsertGoalRow(rows: seq<GoalRow>, profileId: Id, g: SavingsGoal): (r: seq<GoalRow>)
    requires GoalIdsUnique(rows)
    ensures GoalIdsUnique(r) && GoalRow(profileId, g) in r
    ensures forall x :: x in r ==> x == GoalRow(profileId, g) || (x in rows && x.goal.id != g.id)
    ensures forall x :: x in rows && x.goal.id != g.id ==> x in r
  {
    if exists i :: 0 <= i < |rows| && rows[i].goal.id == g.id then
      var i :| 0 <= i < |rows| && rows[i].goal.id == g.id;
      var r := rows[i := GoalRow(profileId, g)];
      assert r[i] == GoalRow(profileId, g);
      assert forall x :: x in rows && x.goal.id != g.id ==> x in r by {
        forall x | x in rows && x.goal.id != g.id ensures x in r {
          var k :| 0 <= k < |rows| && rows[k] == x;
          assert r[k] == x;
        }
      }
      r
    else
      var r := rows + [GoalRow(profileId, g)];
      assert r[|rows|] == GoalRow(profileId, g);
      r
  }

  /**
   * The goals upsert: one row per local goal, keyed by goal id. The database
   * rejects a batch that names the same id twice, so then nothing is written.
   */
  function UpsertGoalRows(rows: seq<GoalRow>, profileId: Id, goals: seq<SavingsGoal>): (r: seq<GoalRow>)
    requires GoalIdsUnique(rows)
    ensures GoalIdsUnique(r)
    ensures !LocalGoalIdsUnique(goals) ==> r == rows
  {
    if LocalGoalIdsUnique(goals) then UpsertAll(rows, profileId, goals) else rows
  }

  function UpsertAll(rows: seq<GoalRow>, profileId: Id, goals: seq<SavingsGoal>): (r: seq<GoalRow>)
    requires GoalIdsUnique(rows) && LocalGoalIdsUnique(goals)
    decreases |goals|
    ensures GoalIdsUnique(r)
    ensures forall g :: g in goals ==> GoalRow(profileId, g) in r
    ensures forall x :: x in r && x.goal.id in GoalIds(goals) ==> x.profileId == profileId && x.goal in goals
    ensures forall x :: x in r && x.goal.id !in GoalIds(goals) ==> x in rows
    ensures forall x :: x in rows && x.goal.id !in GoalIds(goals) ==> x in r
  {
    if goals == [] then rows
    else
      var g := goals[0];
      var once := UpsertGoalRow(rows, profileId, g);
      var r := UpsertAll(once, profileId, goals[1..]);
      assert forall h :: h in goals <==> h == g || h in goals[1..];
      assert g.id !in GoalIds(goals[1..]) by {
        forall k | 0 <= k < |goals[1..]| ensures goals[1..][k].id != g.id {
          assert goals[1..][k] == goals[k + 1];
        }
      }
      assert GoalIds(goals) == {g.id} + GoalIds(goals[1..]);
      r
  }

  /** The profiles upsert with `onConflict: "id"`: the row with the same id is replaced, or the row is added. */
  function UpsertProfileRow(rows: seq<ProfileRow>, row: ProfileRow): (r: seq<ProfileRow>)
    requires RowIdsUnique(rows)
    ensures RowIdsUnique(r) && row in r
    ensures forall x :: x in r ==> x == row || (x in rows && x.id != row.id)
    ensures forall x :: x in rows && x.id != row.id ==> x in r
  {
    if exists i :: 0 <= i < |rows| && rows[i].id == row.id then
      var i :| 0 <= i < |rows| && rows[i].id == row.id;
      var r := rows[i := row];
      assert r[i] == row;
      assert forall x :: x in rows && x.id != row.id ==> x in r by {
        forall x | x in rows && x.id != row.id ensures x in r {
          var k :| 0 <= k < |rows| && rows[k] == x;
          assert r[k] == x;
        }
      }
      r
    else
      var r := rows + [row];
      assert r[|rows|] == row;
      r
  }

  /**
   * The remote half of `saveToSupabase` for a signed-in user: the profile
   * with the id it was saved under, and the store afterwards. The profile
   * row written carries the saver's user id and replaces whatever row had
   * that id; every other row stays.
   */
  function SaveRemote(store: RemoteStore, snapshot: Profile, userId: Id, now: string)
    : (out: (RemoteStore, Profile))
    requires StoreValid(store)
    ensures StoreValid(out.0)
    ensures out.1 == snapshot.(id := out.1.id)
    ensures ToRow(out.1, out.1.id, userId, now) in out.0.profiles
    ensures forall x :: x in out.0.profiles ==>
      x == ToRow(out.1, out.1.id, userId, now) || (x in store.profiles && x.id != out.1.id)
    ensures forall x :: x in store.profiles && x.id != out.1.id ==> x in out.0.profiles
    ensures out.0.entries == store.entries
  {
    var existing := UserRow(store.profiles, userId);
    var profileId := RowId(existing, snapshot.id);
    var saved := snapshot.(id := profileId);
    var profiles := UpsertProfileRow(store.profiles, ToRow(saved, profileId, userId, now));
    var summaries :=
      if |saved.spendingSummary| > 0 then
        KeepOtherSummaries(store.summaries, profileId)
          + OwnSummaryRows(saved.spendingSummary, profileId)
      else store.summaries;
    var toDelete := GoalsToDelete(RemoteGoalIds(store.goals, profileId), saved.goals);
    var goals := UpsertGoalRows(DeleteGoalRows(store.goals, toDelete), profileId, saved.goals);
    (RemoteStore(profiles, store.entries, summaries, goals), saved)
  }

  /** The summary delete: the rows of every other profile, in table order. */
  function KeepOtherSummaries(rows: seq<SummaryRow>, profileId: Id): (r: seq<SummaryRow>)
    ensures SummariesOf(r, profileId) == []
    ensures forall x :: x in r <==> x in rows && x.profileId != profileId
  {
    if rows == [] then []
    else
      var rest := KeepOtherSummaries(rows[1..], profileId);
      assert forall x :: x in rows <==> x == rows[0] || x in rows[1..];
      if rows[0].profileId != profileId then
        var r := [rows[0]] + rest;
        assert r[1..] == rest;
        r
      else rest
  }

  lemma {:induction false} SummariesOfAppend(a: seq<SummaryRow>, b: seq<SummaryRow>, profileId: Id)
    ensures SummariesOf(a + b, profileId) == SummariesOf(a, profileId) + SummariesOf(b, profileId)
  {
    if a != [] {
      assert (a + b)[1..] == a[1..] + b;
      SummariesOfAppend(a[1..], b, profileId);
    } else {
      assert a + b == b;
    }
  }

  /** The summary insert: one row per local summary, tagged with the profile id. */
  function OwnSummaryRows(s: seq<SpendingSummary>, profileId: Id): (r: seq<SummaryRow>)
    ensures |r| == |s|
    ensures forall i :: 0 <= i < |s| ==> r[i] == SummaryRow(profileId, s[i])
  {
    if s == [] then [] else [SummaryRow(profileId, s[0])] + OwnSummaryRows(s[1..], profileId)
  }

  lemma {:induction false} SummariesOfOwnRows(s: seq<SpendingSummary>, profileId: Id)
    ensures SummariesOf(OwnSummaryRows(s, profileId), profileId) == s
  {
    if s != [] {
      SummariesOfOwnRows(s[1..], profileId);
      assert OwnSummaryRows(s, profileId)[1..] == OwnSummaryRows(s[1..], profileId);
    }
  }

  /**
   * The id the save adopts: that of the user's single row when the lookup
   * finds one with an id, and otherwise the local profile's own.
   */
  lemma SaveAdoptsRowId(store: RemoteStore, snapshot: Profile, userId: Id, now: string)
    requires StoreValid(store)
    ensures var (after, saved) := SaveRemote(store, snapshot, userId, now);
      var mine := UserRow(store.profiles, userId);
      && (mine.Some? && mine.value.id != "" ==> saved.id == mine.value.id)
      && (mine.None? || mine.value.id == "" ==> saved.id == snapshot.id)
      && (exists x :: x in after.profiles && x.userId == userId && x.id == saved.id)
  {
    var (after, saved) := SaveRemote(store, snapshot, userId, now);
    assert ToRow(saved, saved.id, userId, now) in after.profiles;
  }

  /**
   * The upsert is keyed on the row id alone. A user the lookup finds no row
   * for, whose local profile id is the id of another user's row, takes that
   * row over: it now carries the saver's user id, and when it was the other
   * user's only row, a later lookup for that user finds nothing.
   */
  lemma SaveTakesOverRow(store: RemoteStore, snapshot: Profile, userId: Id, now: string, other: ProfileRow)
    requires StoreValid(store) && UserRow(store.profiles, userId).None?
    requires other in store.profiles && other.id == snapshot.id && other.userId != userId
    ensures var (after, saved) := SaveRemote(store, snapshot, userId, now);
      && saved.id == other.id
      && other !in after.profiles
      && ToRow(saved, other.id, userId, now) in after.profiles
      && ((forall x :: x in store.profiles && x.userId == other.userId ==> x == other) ==>
            UserRow(after.profiles, other.userId).None?)
  {
    var (after, saved) := SaveRemote(store, snapshot, userId, now);
    if forall x :: x in store.profiles && x.userId == other.userId ==> x == other {
      KeepNone(after.profiles, (x: ProfileRow) => x.userId == other.userId);
    }
  }

  /**
   * After a save, the remote goals of the profile are exactly the local goals
   * (when their ids are distinct), and a deleted goal is never also upserted.
   */
  lemma {:induction false} SaveGoalsMatchLocal(store: RemoteStore, snapshot: Profile, userId: Id, now: string)
    requires StoreValid(store) && LocalGoalIdsUnique(snapshot.goals)
    ensures var (after, saved) := SaveRemote(store, snapshot, userId, now);
      && (forall g :: g in GoalsOf(after.goals, saved.id) <==> g in snapshot.goals)
      && GoalsToDelete(RemoteGoalIds(store.goals, saved.id), snapshot.goals) !! GoalIds(snapshot.goals)
  {
    var (after, saved) := SaveRemote(store, snapshot, userId, now);
    var pid := saved.id;
    var toDelete := GoalsToDelete(RemoteGoalIds(store.goals, pid), saved.goals);
    var kept := DeleteGoalRows(store.goals, toDelete);
    assert after.goals == UpsertAll(kept, pid, saved.goals);
    forall g | GoalRow(pid, g) in after.goals ensures g in snapshot.goals {
      var x := GoalRow(pid, g);
    }
  }

  /** A profiles row written by a save reads back as the same scalar fields. */
  lemma RowRoundTrip(p: Profile, profileId: Id, userId: Id, now: string, store: RemoteStore)
    ensures var loaded := FromRow(ToRow(p, profileId, userId, now), store);
      && loaded.id == profileId
      && loaded.name == p.name
      && loaded.income == Reloadable(p.income)
      && loaded.hasCompletedOnboarding == p.hasCompletedOnboarding
      && loaded.dataCompleteness == p.dataCompleteness
      && loaded.lastUpdated == now
  {
    var row := ToRow(p, profileId, userId, now);
    if p.income.Some? {
      assert row.incomeSource.GetOr("") == p.income.value.source;
    }
  }

  /** A save with a non-empty summary list leaves exactly that list for the profile. */
  lemma SaveSummariesMatchLocal(store: RemoteStore, snapshot: Profile, userId: Id, now: string)
    requires StoreValid(store) && snapshot.spendingSummary != []
    ensures var (after, saved) := SaveRemote(store, snapshot, userId, now);
      SummariesOf(after.summaries, saved.id) == snapshot.spendingSummary
  {
    var (after, saved) := SaveRemote(store, snapshot, userId, now);
    var pid := saved.id;
    var own := OwnSummaryRows(saved.spendingSummary, pid);
    assert after.summaries == KeepOtherSummaries(store.summaries, pid) + own;
    SummariesOfAppend(KeepOtherSummaries(store.summaries, pid), own, pid);
    SummariesOfOwnRows(saved.spendingSummary, pid);
  }

  /**
   * Loading right after a save gives back what was saved, up to the known
   * losses, when the user had at most one row and it had an id.
   */
  lemma SaveThenLoad(store: RemoteStore, snapshot: Profile, userId: Id, now: string)
    requires StoreValid(store) && LocalGoalIdsUnique(snapshot.goals) && snapshot.spendingSummary != []
    requires |RowsOfUser(store.profiles, userId)| <= 1
    requires forall x :: x in store.profiles && x.userId == userId ==> x.id != ""
    ensures var (after, saved) := SaveRemote(store, snapshot, userId, now);
      UserRow(after.profiles, userId) == Some(ToRow(saved, saved.id, userId, now))
    ensures var (after, saved) := SaveRemote(store, snapshot, userId, now);
      var loaded := FromRow(ToRow(saved, saved.id, userId, now), after);
      && loaded.id == saved.id
      && loaded.name == snapshot.name
      && loaded.income == Reloadable(snapshot.income)
      && loaded.spendingSummary == snapshot.spendingSummary
      && (forall g :: g in loaded.goals <==> g in snapshot.goals)
      && loaded.hasCompletedOnboarding == snapshot.hasCompletedOnboarding
      && loaded.dataCompleteness == snapshot.dataCompleteness
      && loaded.lastUpdated == now
  {
    var (after, saved) := SaveRemote(store, snapshot, userId, now);
    var row := ToRow(saved, saved.id, userId, now);
    assert forall x :: x in after.profiles && x.userId == userId ==> x == row;
    OnlyRow(after.profiles, userId, row);
    RowRoundTrip(saved, saved.id, userId, now, after);
    SaveSummariesMatchLocal(store, snapshot, userId, now);
    SaveGoalsMatchLocal(store, snapshot, userId, now);
  }

  /** Saving an empty summary list leaves the remote summaries as they were. */
  lemma SaveEmptySummaryKeepsRemote(store: RemoteStore, snapshot: Profile, userId: Id, now: string)
    requires StoreValid(store) && snapshot.spendingSummary == []
    ensures SaveRemote(store, snapshot, userId, now).0.summaries == store.summaries
  {
  }

  // ------------------------------------------------------------------- load

  /**
   * `loadProfile` once authentication has settled: the profile to adopt
   * (`None` keeps the current one) and the cache afterwards.
   */
  function Load(userId: Option<Id>, thrown: bool, store: RemoteStore, cache: map<string, Profile>,
                freshId: Id, now: string): (out: (Option<Profile>, map<string, Profile>))
    requires StoreValid(store)
    ensures var key := StorageKey(userId);
      && (thrown ==> out == (if key in cache then Some(cache[key]) else None, cache))
      && (!thrown && userId.None? ==> out == (if key in cache then Some(cache[key]) else None, cache))
      && (!thrown && userId.Some? && UserRow(store.profiles, userId.value).None? ==>
            out == (Some(if key in cache then cache[key] else EmptyProfile(freshId, now)), cache))
      && (!thrown && userId.Some? && UserRow(store.profiles, userId.value).Some? ==>
            out.0 == Some(FromRow(UserRow(store.profiles, userId.value).value, store))
            && out.1 == cache[key := out.0.value])
  {
    var key := StorageKey(userId);
    if thrown || userId.None? then
      (if key in cache then Some(cache[key]) else None, cache)
    else if UserRow(store.profiles, userId.value).Some? then
      var loaded := FromRow(UserRow(store.profiles, userId.value).value, store);
      (Some(loaded), cache[key := loaded])
    else
      (Some(if key in cache then cache[key] else EmptyProfile(freshId, now)), cache)
  }

  /**
   * A signed-in user adopts only their own data: the remote row, their own
   * cache entry, a fresh profile or the profile already held. A user whose id
   * is "anonymous" is the exception, and reads the anonymous bucket.
   */
  lemma LoadStaysWithUser(userId: Id, thrown: bool, store: RemoteStore, cache: map<string, Profile>,
                          freshId: Id, now: string)
    requires StoreValid(store) && userId != ""
    ensures var (adopted, _) := Load(Some(userId), thrown, store, cache, freshId, now);
      adopted.Some? ==>
        || (UserRow(store.profiles, userId).Some?
            && UserRow(store.profiles, userId).value.userId == userId
            && adopted.value == FromRow(UserRow(store.profiles, userId).value, store))
        || (KeyPrefix + userId in cache && adopted.value == cache[KeyPrefix + userId])
        || adopted.value == EmptyProfile(freshId, now)
    ensures userId == "anonymous" ==> StorageKey(Some(userId)) == AnonymousKey
  {
  }

  /** A second write under the same key replaces the first. */
  lemma Overwrite<K, V>(m: map<K, V>, k: K, a: V, b: V)
    ensures m[k := a][k := b] == m[k := b]
  {
  }

  /** A profile whose id did not change is the profile itself. */
  lemma SameId(p: Profile, q: Profile)
    requires q == p.(id := q.id) && q.id == p.id
    ensures q == p
  {
  }

  // --------------------------------------------------------------- provider

  class FinancialProvider {
    var profile: Profile
    var cache: map<string, Profile>
    var remote: RemoteStore

    ghost predicate Valid()
      reads this
    {
      StoreValid(remote)
    }

    constructor (initialId: Id, now: string, cache: map<string, Profile>, remote: RemoteStore)
      requires StoreValid(remote)
      ensures Valid()
      ensures profile == EmptyProfile(initialId, now) && this.cache == cache && this.remote == remote
    {
      profile := EmptyProfile(initialId, now);
      this.cache := cache;
      this.remote := remote;
    }

    /** `calculateDataCompleteness` on the current profile. */
    function CalculateDataCompleteness(): (r: int)
      reads this
      ensures 0 <= r <= 100
    {
      DataCompleteness(profile)
    }

    /**
     * `loadProfile`. While authentication is still loading nothing happens;
     * otherwise the outcome is `Load`.
     */
    method LoadProfile(userId: Option<Id>, authLoading: bool, thrown: bool, freshId: Id, now: string)
      requires Valid()
      modifies this`profile, this`cache
      ensures Valid()
      ensures authLoading ==> profile == old(profile) && cache == old(cache)
      ensures !authLoading ==>
        var (adopted, newCache) := Load(userId, thrown, remote, old(cache), freshId, now);
        profile == adopted.GetOr(old(profile)) && cache == newCache
    {
      if authLoading {
        return;
      }
      var key := StorageKey(userId);
      if !thrown && userId.Some? {
        var mine := UserRow(remote.profiles, userId.value);
        if mine.Some? {
          var loaded := FromRow(mine.value, remote);
          profile := loaded;
          cache := cache[key := loaded];
        } else if key in cache {
          profile := cache[key];
        } else {
          profile := EmptyProfile(freshId, now);
        }
      } else if key in cache {
        profile := cache[key];
      }
    }

    /**
     * `saveToSupabase(snapshot)`: without a user only the anonymous cache
     * entry is written; otherwise the user's cache entry (with the adopted
     * id) and the remote store. The in-memory profile is not touched.
     */
    method SaveToSupabase(snapshot: Profile, userId: Option<Id>, now: string)
      requires Valid()
      modifies this`cache, this`remote
      ensures Valid()
      ensures StorageKey(userId) in cache
      ensures cache[StorageKey(userId)] == snapshot.(id := cache[StorageKey(userId)].id)
      ensures userId.None? || userId.value == "" ==>
        cache == old(cache)[AnonymousKey := snapshot] && remote == old(remote)
      ensures userId.Some? && userId.value != "" ==>
        var (after, saved) := SaveRemote(old(remote), snapshot, userId.value, now);
        cache == old(cache)[StorageKey(userId) := saved] && remote == after
    {
      if userId.None? || userId.value == "" {
        cache := cache[AnonymousKey := snapshot];
        return;
      }
      var user := userId.value;
      var key := StorageKey(userId);
      cache := cache[key := snapshot];
      var out := SaveRemote(remote, snapshot, user, now);
      if out.1.id != snapshot.id {
        Overwrite(old(cache), key, snapshot, out.1);
        cache := cache[key := out.1];
      } else {
        SameId(snapshot, out.1);
      }
      remote := out.0;
    }

    /** The debounced save when its timer fires: the profile as it is now is persisted. */
    method PersistLatest(userId: Option<Id>, now: string)
      requires Valid()
      modifies this`cache, this`remote
      ensures Valid() && profile == old(profile)
      ensures StorageKey(userId) in cache
      ensures cache[StorageKey(userId)] == profile.(id := cache[StorageKey(userId)].id)
      ensures userId.None? || userId.value == "" ==>
        cache == old(cache)[AnonymousKey := old(profile)] && remote == old(remote)
      ensures userId.Some? && userId.value != "" ==>
        var (after, saved) := SaveRemote(old(remote), old(profile), userId.value, now);
        cache == old(cache)[StorageKey(userId) := saved] && remote == after
    {
      SaveToSupabase(profile, userId, now);
    }

    method UpdateIncome(income: IncomeData, now: string)
      requires Valid()
      modifies this`profile
      ensures Valid()
      ensures profile == old(profile).(income := Some(income), lastUpdated := now)
    {
      profile := profile.(income := Some(income), lastUpdated := now);
    }

    method AddSpending(entry: SpendingEntry, now: string)
      requires Valid()
      modifies this`profile
      ensures Valid()
      ensures profile == old(profile).(monthlySpending := old(profile).monthlySpending + [entry], lastUpdated := now)
    {
      profile := profile.(monthlySpending := profile.monthlySpending + [entry], lastUpdated := now);
    }

    method AddSpendingSummary(category: Category, amount: real, confidence: Confidence, now: string)
      requires Valid()
      modifies this`profile
      ensures Valid()
      ensures profile == old(profile).(spendingSummary := AddToSummary(old(profile).spendingSummary, category, amount, confidence),
                                       lastUpdated := now)
      ensures CategoriesUnique(old(profile).spendingSummary) ==> CategoriesUnique(profile.spendingSummary)
      ensures DataCompleteness(profile) >= DataCompleteness(old(profile))
    {
      profile := profile.(spendingSummary := AddToSummary(profile.spendingSummary, category, amount, confidence),
                          lastUpdated := now);
    }

    method UpdateSpendingSummary(summaries: seq<SpendingSummary>, now: string)
      requires Valid()
      modifies this`profile
      ensures Valid()
      ensures profile == old(profile).(spendingSummary := summaries, lastUpdated := now)
    {
      profile := profile.(spendingSummary := summaries, lastUpdated := now);
    }

    method AddGoal(goal: SavingsGoal, now: string)
      requires Valid()
      modifies this`profile
      ensures Valid()
      ensures profile == old(profile).(goals := old(profile).goals + [goal], lastUpdated := now)
    {
      profile := profile.(goals := profile.goals + [goal], lastUpdated := now);
    }

    method UpdateGoal(id: Id, updates: GoalUpdate, now: string)
      requires Valid()
      modifies this`profile
      ensures Valid()
      ensures profile == old(profile).(goals := UpdateGoals(old(profile).goals, id, updates), lastUpdated := now)
    {
      profile := profile.(goals := UpdateGoals(profile.goals, id, updates), lastUpdated := now);
    }

    method DeleteGoal(id: Id, now: string)
      requires Valid()
      modifies this`profile
      ensures Valid()
      ensures profile == old(profile).(goals := RemoveGoal(old(profile).goals, id), lastUpdated := now)
      ensures !HasGoal(profile.goals, id)
    {
      profile := profile.(goals := RemoveGoal(profile.goals, id), lastUpdated := now);
    }

    method MergeUploadedData(spending: seq<SpendingEntry>, now: string)
      requires Valid()
      modifies this`profile
      ensures Valid()
      ensures profile == old(profile).(monthlySpending := old(profile).monthlySpending + spending, lastUpdated := now)
    {
      profile := profile.(monthlySpending := profile.monthlySpending + spending, lastUpdated := now);
    }

    method SetUserName(name: string, now: string)
      requires Valid()
      modifies this`profile
      ensures Valid()
      ensures profile == old(profile).(name := name, lastUpdated := now)
    {
      profile := profile.(name := name, lastUpdated := now);
    }

    /**
     * `completeOnboarding`: set the flag and save at once, without waiting
     * for the debounce.
     */
    method CompleteOnboarding(userId: Option<Id>, now: string)
      requires Valid()
      modifies this
      ensures Valid()
      ensures profile == old(profile).(hasCompletedOnboarding := true, lastUpdated := now)
      ensures StorageKey(userId) in cache && cache[StorageKey(userId)].hasCompletedOnboarding
      ensures userId.None? || userId.value == "" ==>
        cache == old(cache)[AnonymousKey := profile] && remote == old(remote)
      ensures userId.Some? && userId.value != "" ==>
        var (after, saved) := SaveRemote(old(remote), profile, userId.value, now);
        cache == old(cache)[StorageKey(userId) := saved] && remote == after
      ensures userId.Some? && userId.value != "" ==>
        exists x :: x in remote.profiles && x.userId == userId.value && x.hasCompletedOnboarding
    {
      var updated := profile.(hasCompletedOnboarding := true, lastUpdated := now);
      profile := updated;
      SaveToSupabase(updated, userId, now);
      if userId.Some? && userId.value != "" {
        var saved := cache[StorageKey(userId)];
        assert ToRow(saved, saved.id, userId.value, now) in remote.profiles;
      }
    }

    /**
     * `resetProfile`: a fresh empty profile, the user's cache entry removed
     * and the remote row of the old profile id deleted.
     */
    method ResetProfile(userId: Option<Id>, freshId: Id, now: string)
      requires Valid()
      modifies this
      ensures Valid()
      ensures profile == EmptyProfile(freshId, now)
      ensures cache == old(cache) - {StorageKey(userId)}
      ensures remote.profiles == DeleteRow(old(remote).profiles, old(profile).id)
      ensures forall x :: x in remote.profiles <==> x in old(remote).profiles && x.id != old(profile).id
      ensures remote.entries == old(remote).entries && remote.summaries == old(remote).summaries
      ensures remote.goals == old(remote).goals
    {
      var oldProfileId := profile.id;
      profile := EmptyProfile(freshId, now);
      cache := cache - {StorageKey(userId)};
      remote := remote.(profiles := DeleteRow(remote.profiles, oldProfileId));
    }
  }
}
