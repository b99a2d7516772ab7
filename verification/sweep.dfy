/** The fetch loop of the search button (streamlit_app.py:113-130): one fetch
    for the bare seed, then one per modifier in vocabulary order. */
module ModifierSweep {
  import opened StringOrder
  import opened Queries

  /** The suggestion endpoint for one query: its suggestion list, or `[]` when
      the request fails or answers with a non-200 status (streamlit_app.py:51-61). */
  type Fetch = string -> seq<string>

  /** The key under which the bare seed's suggestions are stored. */
  const BareKey: string := ""

  /** The queries sent, in the order they were sent, and the suggestions kept
      per modifier (`modifier_results`). */
  datatype SweepLog = SweepLog(issued: seq<string>, results: map<string, seq<string>>)

  /** Reading `modifier_results[key]` from the defaultdict: a key that was never
      stored reads as the empty list. */
  function Batch(results: map<string, seq<string>>, key: string): seq<string>
  {
    if key in results then results[key] else []
  }

  /** What the `for` loop has recorded after its first `n` iterations: the
      bare-seed fetch, then one fetch per modifier `vocab[0..n)`. What it holds
      is stated by the three lemmas that follow. */
  function SweepUpTo(seed: string, vocab: seq<string>, position: string, fetch: Fetch, n: nat): (r: SweepLog)
    requires n <= |vocab|
    ensures |r.issued| == n + 1 && r.issued[0] == seed
    ensures BareKey in r.results
    decreases n
  {
    if n == 0 then SweepLog([seed], map[BareKey := fetch(seed)])
    else
      var prev := SweepUpTo(seed, vocab, position, fetch, n - 1);
      var q := Query(seed, vocab[n - 1], position);
      SweepLog(prev.issued + [q], prev.results[vocab[n - 1] := fetch(q)])
  }

  /** After `n` iterations the trace is the seed followed by the first `n`
      modifier queries, in vocabulary order. */
  lemma {:induction false} SweepUpToIssued(seed: string, vocab: seq<string>, position: string, fetch: Fetch, n: nat)
    requires n <= |vocab|
    ensures forall i :: 0 <= i < n ==> SweepUpTo(seed, vocab, position, fetch, n).issued[i + 1] == Query(seed, vocab[i], position)
    decreases n
  {
    if n > 0 {
      SweepUpToIssued(seed, vocab, position, fetch, n - 1);
      var prev := SweepUpTo(seed, vocab, position, fetch, n - 1);
      var r := SweepUpTo(seed, vocab, position, fetch, n);
      assert r.issued == prev.issued + [Query(seed, vocab[n - 1], position)];
      forall i | 0 <= i < n
        ensures r.issued[i + 1] == Query(seed, vocab[i], position)
      {
        if i < n - 1 {
          assert r.issued[i + 1] == prev.issued[i + 1];
        }
      }
    }
  }

  /** After `n` iterations the stored keys are exactly the bare key and the
      first `n` modifiers. */
  lemma {:induction false} SweepUpToKeys(seed: string, vocab: seq<string>, position: string, fetch: Fetch, n: nat)
    requires n <= |vocab|
    ensures forall k :: k in SweepUpTo(seed, vocab, position, fetch, n).results <==> k == BareKey || k in vocab[..n]
    decreases n
  {
    if n > 0 {
      SweepUpToKeys(seed, vocab, position, fetch, n - 1);
      assert vocab[..n] == vocab[..n - 1] + [vocab[n - 1]];
    }
  }

  /** After `n` iterations every one of the first `n` modifiers holds the
      answer to its own query. */
  lemma {:induction false} SweepUpToBatches(seed: string, vocab: seq<string>, position: string, fetch: Fetch, n: nat)
    requires n <= |vocab|
    ensures forall i :: 0 <= i < n ==>
              (vocab[i] in SweepUpTo(seed, vocab, position, fetch, n).results &&
               SweepUpTo(seed, vocab, position, fetch, n).results[vocab[i]] == fetch(Query(seed, vocab[i], position)))
    decreases n
  {
    if n > 0 {
      SweepUpToBatches(seed, vocab, position, fetch, n - 1);
      var prev := SweepUpTo(seed, vocab, position, fetch, n - 1);
      var r := SweepUpTo(seed, vocab, position, fetch, n);
      var m := vocab[n - 1];
      assert r.results == prev.results[m := fetch(Query(seed, m, position))];
      forall i | 0 <= i < n
        ensures vocab[i] in r.results && r.results[vocab[i]] == fetch(Query(seed, vocab[i], position))
      {
        if vocab[i] != m {
          assert r.results[vocab[i]] == prev.results[vocab[i]];
        }
      }
    }
  }

  /** The bare key holds the seed's answer unless a modifier spelled ""
      overwrote it. */
  lemma {:induction false} SweepUpToBareBatch(seed: string, vocab: seq<string>, position: string, fetch: Fetch, n: nat)
    requires n <= |vocab|
    ensures BareKey !in vocab[..n] ==> SweepUpTo(seed, vocab, position, fetch, n).results[BareKey] == fetch(seed)
    decreases n
  {
    if n > 0 && BareKey !in vocab[..n] {
      assert vocab[..n - 1] == vocab[..n][..n - 1];
      SweepUpToBareBatch(seed, vocab, position, fetch, n - 1);
      assert vocab[n - 1] == vocab[..n][n - 1];
    }
  }

  /** The whole sweep: the bare seed first under `BareKey`, then every modifier
      in vocabulary order, each failure recorded as an empty batch. */
  function Sweep(seed: string, vocab: seq<string>, position: string, fetch: Fetch): (r: SweepLog)
    ensures |r.issued| == |vocab| + 1
    ensures r.issued[0] == seed
    ensures forall i :: 0 <= i < |vocab| ==> r.issued[i + 1] == Query(seed, vocab[i], position)
    ensures forall k :: k in r.results <==> k == BareKey || k in vocab
    ensures BareKey !in vocab ==> r.results[BareKey] == fetch(seed)
    ensures forall m :: m in vocab ==> m in r.results && r.results[m] == fetch(Query(seed, m, position))
  {
    assert vocab[..|vocab|] == vocab;
    SweepUpToIssued(seed, vocab, position, fetch, |vocab|);
    SweepUpToKeys(seed, vocab, position, fetch, |vocab|);
    SweepUpToBatches(seed, vocab, position, fetch, |vocab|);
    SweepUpToBareBatch(seed, vocab, position, fetch, |vocab|);
    assert forall m :: m in vocab ==> exists i :: 0 <= i < |vocab| && vocab[i] == m;
    SweepUpTo(seed, vocab, position, fetch, |vocab|)
  }

  /** With a duplicate-free vocabulary, the bare seed and every modifier query
      are each sent exactly once. */
  lemma SweepFetchesEachOnce(seed: string, vocab: seq<string>, position: string, fetch: Fetch)
    requires Distinct(vocab)
    ensures Distinct(Sweep(seed, vocab, position, fetch).issued)
    ensures multiset(Sweep(seed, vocab, position, fetch).issued)[seed] == 1
    ensures forall m :: m in vocab ==> multiset(Sweep(seed, vocab, position, fetch).issued)[Query(seed, m, position)] == 1
  {
    var issued := Sweep(seed, vocab, position, fetch).issued;
    forall i, j | 0 <= i < j < |issued|
      ensures issued[i] != issued[j]
    {
      if i == 0 {
        QueryIsNotSeed(seed, vocab[j - 1], position);
      } else if issued[i] == issued[j] {
        QueryInjective(seed, vocab[i - 1], vocab[j - 1], position);
      }
    }
    DistinctCountsAtMostOne(issued, seed);
    assert issued[0] in multiset(issued);
    forall m | m in vocab
      ensures multiset(issued)[Query(seed, m, position)] == 1
    {
      var i :| 0 <= i < |vocab| && vocab[i] == m;
      assert issued[i + 1] in multiset(issued);
      DistinctCountsAtMostOne(issued, Query(seed, m, position));
    }
  }

  /** A failed fetch for one modifier empties that modifier's batch and
      nothing else: every key is still present and every other batch is what
      it would have been. */
  lemma SweepFailureIsolated(seed: string, vocab: seq<string>, position: string, f: Fetch, g: Fetch, x: string)
    requires x in vocab && BareKey !in vocab
    requires g(Query(seed, x, position)) == []
    requires forall q :: q != Query(seed, x, position) ==> g(q) == f(q)
    ensures Sweep(seed, vocab, position, g).issued == Sweep(seed, vocab, position, f).issued
    ensures forall k :: k in Sweep(seed, vocab, position, g).results <==> k in Sweep(seed, vocab, position, f).results
    ensures Sweep(seed, vocab, position, g).results[x] == []
    ensures forall k :: k in Sweep(seed, vocab, position, f).results && k != x ==>
              Sweep(seed, vocab, position, g).results[k] == Sweep(seed, vocab, position, f).results[k]
  {
    var rf, rg := Sweep(seed, vocab, position, f), Sweep(seed, vocab, position, g);
    QueryIsNotSeed(seed, x, position);
    forall k | k in rf.results && k != x
      ensures rg.results[k] == rf.results[k]
    {
      if k != BareKey && Query(seed, k, position) == Query(seed, x, position) {
        QueryInjective(seed, k, x, position);
      }
    }
    forall i | 0 <= i < |rf.issued|
      ensures rg.issued[i] == rf.issued[i]
    {
      if i > 0 {
        assert rf.issued[(i - 1) + 1] == Query(seed, vocab[i - 1], position);
      }
    }
  }
}
