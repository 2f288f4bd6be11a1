/**
 * The recent-activity feed: the profile's entries ordered newest first with
 * undated entries last, the first five of them, and how each entry shows its
 * sign, amount and date.
 */
module Activity {
  import opened Wrappers
  import opened Domain
  import opened Lists
  import opened Sorting

  const FeedSize: nat := 5

  /** The timestamp an entry is ordered by: `createdAt || date`. */
  function FeedKey(e: SpendingEntry): (r: Option<Stamp>)
    ensures r.Some? <==> e.createdAt.Some? || e.date.Some?
    ensures e.createdAt.Some? ==> r == e.createdAt
    ensures e.createdAt.None? ==> r == e.date
  {
    if e.createdAt.Some? then e.createdAt else e.date
  }

  predicate Dated(e: SpendingEntry) { FeedKey(e).Some? }

  /**
   * The feed comparator as "may precede" (its result is not positive): two
   * undated entries tie, an undated entry goes after a dated one, and two
   * dated entries compare by `getTime()` descending, where a date that does
   * not parse makes the difference NaN, which counts as a tie.
   */
  predicate FeedBefore(a: SpendingEntry, b: SpendingEntry): (r: bool)
    ensures Dated(a) && !Dated(b) ==> r
    ensures !Dated(a) && Dated(b) ==> !r
    ensures !Dated(a) && !Dated(b) ==> r
  {
    var ka, kb := FeedKey(a), FeedKey(b);
    if ka.None? && kb.None? then true
    else if ka.None? then false
    else if kb.None? then true
    else if ka.value.Unparsable? || kb.value.Unparsable? then true
    else kb.value.millis <= ka.value.millis
  }

  /** The five entries the feed lists; the profile's own list is left as it is. */
  function RecentTransactions(es: seq<SpendingEntry>): (r: seq<SpendingEntry>)
    ensures |r| == if |es| < FeedSize then |es| else FeedSize
    ensures |r| <= FeedSize && multiset(r) <= multiset(es)
    ensures |es| <= FeedSize ==> multiset(r) == multiset(es)
  {
    Take(SortBy(es, FeedBefore), FeedSize)
  }

  /** No undated entry comes before a dated one. */
  ghost predicate DatedFirst(s: seq<SpendingEntry>) {
    forall i, j :: 0 <= i < j < |s| && !Dated(s[i]) ==> !Dated(s[j])
  }

  lemma {:induction false} InsertKeepsDatedFirst(x: SpendingEntry, s: seq<SpendingEntry>)
    requires DatedFirst(s)
    ensures DatedFirst(Insert(x, s, FeedBefore))
  {
    if s != [] && !FeedBefore(x, s[0]) {
      InsertKeepsDatedFirst(x, s[1..]);
      var rest := Insert(x, s[1..], FeedBefore);
      assert Insert(x, s, FeedBefore) == [s[0]] + rest;
    } else if s != [] && !Dated(x) {
      assert !Dated(s[0]);
    }
  }

  /**
   * Dated entries come before undated ones, whatever the dates are (even when
   * some do not parse and the comparator is not consistent).
   */
  lemma {:induction false} SortKeepsDatedFirst(es: seq<SpendingEntry>)
    ensures DatedFirst(SortBy(es, FeedBefore))
  {
    if es != [] {
      SortKeepsDatedFirst(es[1..]);
      InsertKeepsDatedFirst(es[0], SortBy(es[1..], FeedBefore));
    }
  }

  /** Every date in `s` is either absent or parses. */
  ghost predicate DatesParse(s: seq<SpendingEntry>) {
    forall e :: e in s ==> FeedKey(e).None? || FeedKey(e).value.Parsed?
  }

  /** The `getTime()` of an entry's ordering date (0 when there is none that parses). */
  function Millis(e: SpendingEntry): int {
    if Dated(e) && FeedKey(e).value.Parsed? then FeedKey(e).value.millis else 0
  }

  lemma FeedPreorder(es: seq<SpendingEntry>)
    requires DatesParse(es)
    ensures PreorderOn(es, FeedBefore)
    ensures forall a, b :: a in es && b in es && FeedBefore(a, b) && Dated(b) ==> Dated(a) && Millis(a) >= Millis(b)
  {
  }

  lemma SameElements(es: seq<SpendingEntry>, sorted: seq<SpendingEntry>)
    requires multiset(sorted) == multiset(es)
    ensures forall x :: x in sorted <==> x in es
  {
    forall x ensures x in sorted <==> x in es {
      assert x in sorted <==> x in multiset(sorted);
      assert x in es <==> x in multiset(es);
    }
  }

  /**
   * When every date parses, the feed lists dated entries newest first, then
   * undated ones, and no entry left out is newer than one shown.
   */
  lemma FeedNewestFirst(es: seq<SpendingEntry>)
    requires DatesParse(es)
    ensures var r := RecentTransactions(es);
      && DatedFirst(r)
      && (forall i, j :: 0 <= i < j < |r| && Dated(r[j]) ==> Dated(r[i]) && Millis(r[i]) >= Millis(r[j]))
      && (forall x, y :: x in r && y in es && y !in r && Dated(y) ==> Dated(x) && Millis(x) >= Millis(y))
  {
    FeedPreorder(es);
    var sorted := SortBy(es, FeedBefore);
    SortBySorted(es, FeedBefore);
    SortKeepsDatedFirst(es);
    TakeIsTop(sorted, FeedSize, FeedBefore);
    SameElements(es, sorted);
    var r := RecentTransactions(es);
    assert r == sorted[..|r|];
    forall i, j | 0 <= i < j < |r| && Dated(r[j]) ensures Dated(r[i]) && Millis(r[i]) >= Millis(r[j]) {
      assert r[i] == sorted[i] && r[j] == sorted[j];
      assert r[i] in es && r[j] in es;
    }
  }

  /** `isIncome ? "+" : "-"`: only an entry typed as income shows a plus. */
  function Sign(e: SpendingEntry): (r: string)
    ensures r == "+" <==> e.entryType == Some(Income)
    ensures r == "+" || r == "-"
  {
    if e.entryType == Some(Income) then "+" else "-"
  }

  /** `Math.abs(entry.amount)`. */
  function Magnitude(e: SpendingEntry): (r: real)
    ensures r >= 0.0 && (r == e.amount || r == -e.amount)
  {
    if e.amount < 0.0 then -e.amount else e.amount
  }

  /** Sign and magnitude together give back the amount of an entry stored as a positive value. */
  lemma SignMagnitudeRecovers(e: SpendingEntry)
    requires e.amount >= 0.0
    ensures (if Sign(e) == "+" then Magnitude(e) else -Magnitude(e)) ==
            (if e.entryType == Some(Income) then e.amount else -e.amount)
  {
  }

  /** The date line: "Recent" without a date, otherwise wording relative to the clock. */
  datatype DateLabel = Recent | Relative(stamp: Stamp)

  function DisplayDate(e: SpendingEntry): (r: DateLabel)
    ensures r == Recent <==> e.createdAt.None? && e.date.None?
    ensures e.createdAt.Some? ==> r == Relative(e.createdAt.value)
    ensures e.createdAt.None? && e.date.Some? ==> r == Relative(e.date.value)
  {
    match FeedKey(e)
    case None => Recent
    case Some(s) => Relative(s)
  }
}
