/**
 * Batch categorisation of raw bank transactions: the input is cut into
 * batches of 20, each batch is sent to a language model (an oracle here),
 * a failed batch falls back to uncategorised results, and the gathered
 * results are mapped back onto the input in order with a whitelisted
 * category.
 */
module Categorize {
  import opened Wrappers

  datatype RawTransaction = RawTransaction(id: string, description: string, amount: real)

  /**
   * One categorised transaction. Results come back from the model as
   * untyped JSON, so category and confidence are free strings; a missing
   * field is "".
   */
  datatype Categorized = Categorized(
    id: string, merchantName: string, category: string, confidence: string, reasoning: string)

  /** What the model call for one batch gives: the extracted list, or a throw. */
  datatype BatchReply = Failed | Replied(results: seq<Categorized>)

  const BatchSize: nat := 20

  /** The 23 categories a result may carry. */
  const Allowed: set<string> := {
    "food", "transport", "utilities", "housing", "entertainment", "shopping",
    "health", "education", "savings", "data_airtime", "family", "debt",
    "salary", "business", "gift", "other", "personal_care", "investment",
    "tax", "travel", "insurance", "subscriptions", "charity"
  }

  function Min(a: int, b: int): int { if a <= b then a else b }

  function Flatten<T>(bs: seq<seq<T>>): (r: seq<T>)
  {
    if bs == [] then [] else bs[0] + Flatten(bs[1..])
  }

  lemma {:induction false} FlattenSnoc<T>(bs: seq<seq<T>>, b: seq<T>)
    ensures Flatten(bs + [b]) == Flatten(bs) + b
  {
    if bs == [] {
      assert [b][1..] == [];
    } else {
      assert (bs + [b])[1..] == bs[1..] + [b];
      FlattenSnoc(bs[1..], b);
    }
  }

  /**
   * The batching loop: consecutive slices of at most 20 transactions.
   */
  method MakeBatches(ts: seq<RawTransaction>) returns (batches: seq<seq<RawTransaction>>)
    ensures |batches| == (|ts| + BatchSize - 1) / BatchSize
    ensures forall k :: 0 <= k < |batches| ==> 1 <= |batches[k]| <= BatchSize
    ensures forall k :: 0 <= k < |batches| ==>
      batches[k] == ts[BatchSize * k .. Min(BatchSize * k + BatchSize, |ts|)]
    ensures Flatten(batches) == ts
  {
    batches := [];
    var i := 0;
    while i < |ts|
      invariant i == BatchSize * |batches| && i <= |ts| + BatchSize - 1
      invariant forall k :: 0 <= k < |batches| ==> 1 <= |batches[k]| <= BatchSize
      invariant forall k :: 0 <= k < |batches| ==>
        batches[k] == ts[BatchSize * k .. Min(BatchSize * k + BatchSize, |ts|)]
      invariant Flatten(batches) == ts[..Min(i, |ts|)]
      decreases |ts| - i
    {
      var batch := ts[i .. Min(i + BatchSize, |ts|)];
      FlattenSnoc(batches, batch);
      assert ts[..Min(i + BatchSize, |ts|)] == ts[..i] + batch;
      batches := batches + [batch];
      i := i + BatchSize;
    }
    assert ts[..Min(i, |ts|)] == ts;
  }

  /** The low-confidence stand-in for a transaction the model did not categorise. */
  function Fallback(t: RawTransaction): (r: Categorized)
    ensures r.id == t.id && r.category in Allowed
  {
    Categorized(t.id, t.description, "other", "low", "")
  }

  function Fallbacks(batch: seq<RawTransaction>): (r: seq<Categorized>)
    ensures |r| == |batch|
    ensures forall i :: 0 <= i < |batch| ==> r[i] == Fallback(batch[i])
  {
    seq(|batch|, i requires 0 <= i < |batch| => Fallback(batch[i]))
  }

  /** What batch number `k` adds to the results. */
  function BatchResults(k: nat, batch: seq<RawTransaction>, reply: (nat, seq<RawTransaction>) -> BatchReply)
    : (r: seq<Categorized>)
    ensures reply(k, batch).Failed? ==> r == Fallbacks(batch)
    ensures reply(k, batch).Replied? ==> r == reply(k, batch).results
  {
    match reply(k, batch)
    case Failed => Fallbacks(batch)
    case Replied(results) => results
  }

  /** The results gathered from the first `n` batches, in batch order. */
  function Gathered(batches: seq<seq<RawTransaction>>, reply: (nat, seq<RawTransaction>) -> BatchReply, n: nat)
    : seq<Categorized>
    requires n <= |batches|
  {
    if n == 0 then [] else Gathered(batches, reply, n - 1) + BatchResults(n - 1, batches[n - 1], reply)
  }

  /** The batch loop: each batch's reply, or its fallbacks, appended in turn. */
  method CollectResults(batches: seq<seq<RawTransaction>>, reply: (nat, seq<RawTransaction>) -> BatchReply)
    returns (results: seq<Categorized>)
    ensures results == Gathered(batches, reply, |batches|)
    ensures (forall k :: 0 <= k < |batches| ==> reply(k, batches[k]).Failed?) ==>
      results == Fallbacks(Flatten(batches))
  {
    results := [];
    var k := 0;
    while k < |batches|
      invariant k <= |batches|
      invariant results == Gathered(batches, reply, k)
    {
      results := results + BatchResults(k, batches[k], reply);
      k := k + 1;
    }
    if forall k :: 0 <= k < |batches| ==> reply(k, batches[k]).Failed? {
      AllFailedGathered(batches, reply, |batches|);
      assert batches[..|batches|] == batches;
    }
  }

  lemma {:induction false} AllFailedGathered(batches: seq<seq<RawTransaction>>,
                                             reply: (nat, seq<RawTransaction>) -> BatchReply, n: nat)
    requires n <= |batches|
    requires forall k :: 0 <= k < |batches| ==> reply(k, batches[k]).Failed?
    ensures Gathered(batches, reply, n) == Fallbacks(Flatten(batches[..n]))
  {
    if n > 0 {
      AllFailedGathered(batches, reply, n - 1);
      assert batches[..n] == batches[..n - 1] + [batches[n - 1]];
      FlattenSnoc(batches[..n - 1], batches[n - 1]);
      var a, b := Flatten(batches[..n - 1]), batches[n - 1];
      assert Fallbacks(a + b) == Fallbacks(a) + Fallbacks(b);
    } else {
      assert batches[..0] == [];
    }
  }

  /** `results.find(r => r.id === id)`: the first result with that id. */
  function FindById(results: seq<Categorized>, id: string): (r: Option<Categorized>)
    ensures r.None? <==> forall x :: x in results ==> x.id != id
    ensures r.Some? ==> r.value.id == id
    ensures r.Some? ==> exists i :: 0 <= i < |results| && results[i] == r.value &&
                          forall j :: 0 <= j < i ==> results[j].id != id
  {
    if results == [] then None
    else if results[0].id == id then Some(results[0])
    else
      var rest := FindById(results[1..], id);
      assert forall x :: x in results <==> x == results[0] || x in results[1..];
      if rest.Some? then
        var i :| 0 <= i < |results[1..]| && results[1..][i] == rest.value &&
                 forall j :: 0 <= j < i ==> results[1..][j].id != id;
        assert results[i + 1] == rest.value;
        assert forall j :: 0 < j < i + 1 ==> results[j].id != id by {
          forall j | 0 < j < i + 1 ensures results[j].id != id {
            assert results[j] == results[1..][j - 1];
          }
        }
        rest
      else rest
  }

  /** The category kept for a found result: an allowed value, else "other". */
  function Validated(category: string): (r: string)
    ensures r in Allowed
    ensures category in Allowed ==> r == category
    ensures category !in Allowed ==> r == "other"
  {
    if category == "" then "other" else if category in Allowed then category else "other"
  }

  /** The final map back onto the input. */
  function Reconcile(ts: seq<RawTransaction>, results: seq<Categorized>): (out: seq<Categorized>)
    ensures |out| == |ts|
    ensures forall i :: 0 <= i < |ts| ==> out[i].id == ts[i].id && out[i].category in Allowed
    ensures forall i :: 0 <= i < |ts| ==>
      var found := FindById(results, ts[i].id);
      && (found.None? ==> out[i] == Fallback(ts[i]))
      && (found.Some? ==> out[i] == found.value.(category := Validated(found.value.category)))
  {
    seq(|ts|, i requires 0 <= i < |ts| =>
      var found := FindById(results, ts[i].id);
      if found.Some? then found.value.(category := Validated(found.value.category)) else Fallback(ts[i]))
  }

  predicate IdsUnique(ts: seq<RawTransaction>) {
    forall i, j :: 0 <= i < j < |ts| ==> ts[i].id != ts[j].id
  }

  /**
   * When every batch fails and the input ids are distinct, each transaction
   * gets its own fallback.
   */
  lemma ReconcileFallbacks(ts: seq<RawTransaction>)
    requires IdsUnique(ts)
    ensures Reconcile(ts, Fallbacks(ts)) == Fallbacks(ts)
  {
    var fs := Fallbacks(ts);
    forall i | 0 <= i < |ts| ensures Reconcile(ts, fs)[i] == fs[i] {
      var found := FindById(fs, ts[i].id);
      assert fs[i].id == ts[i].id;
      var m :| 0 <= m < |fs| && fs[m] == found.value && forall j :: 0 <= j < m ==> fs[j].id != ts[i].id;
      assert m == i;
    }
  }

  /**
   * With repeated input ids the first transaction's fallback wins: the
   * second "a" below reports the first one's description as its merchant.
   */
  lemma ReconcileDuplicateIds()
    ensures var ts := [RawTransaction("a", "X", 1.0), RawTransaction("a", "Y", 2.0)];
      Reconcile(ts, Fallbacks(ts))[1].merchantName == "X"
  {
    var ts := [RawTransaction("a", "X", 1.0), RawTransaction("a", "Y", 2.0)];
    assert Fallbacks(ts)[0] == Fallback(ts[0]);
  }

  /**
   * `categorizeTransactionsAI`. `asked` is the sequence of batches handed to
   * the model.
   */
  method CategorizeTransactions(ts: seq<RawTransaction>, reply: (nat, seq<RawTransaction>) -> BatchReply)
    returns (out: seq<Categorized>, ghost asked: seq<seq<RawTransaction>>)
    ensures ts == [] ==> out == [] && asked == []
    ensures Flatten(asked) == ts && |asked| == (|ts| + BatchSize - 1) / BatchSize
    ensures forall k :: 0 <= k < |asked| ==> 1 <= |asked[k]| <= BatchSize
    ensures out == Reconcile(ts, Gathered(asked, reply, |asked|))
    ensures |out| == |ts|
    ensures forall i :: 0 <= i < |ts| ==> out[i].id == ts[i].id && out[i].category in Allowed
    ensures IdsUnique(ts) && (forall k :: 0 <= k < |asked| ==> reply(k, asked[k]).Failed?) ==>
      out == Fallbacks(ts)
  {
    if |ts| == 0 {
      return [], [];
    }
    var batches := MakeBatches(ts);
    asked := batches;
    var results := CollectResults(batches, reply);
    out := Reconcile(ts, results);
    if IdsUnique(ts) && (forall k :: 0 <= k < |asked| ==> reply(k, asked[k]).Failed?) {
      ReconcileFallbacks(ts);
    }
  }
}
