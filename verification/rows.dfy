/** The result table `all_data` built after the sweep (streamlit_app.py:142-165). */
module Rows {
  import opened StringOrder
  import opened Queries
  import opened ModifierSweep

  /** The `Modifikatorius` tag of the bare seed's rows. */
  const NoModifier: string := "(nėra)"

  /** One table row: `Modifikatorius`, `Užklausa` and `Pasiūlymas`. */
  datatype Row = Row(modifier: string, query: string, suggestion: string)

  /** One row per suggestion of `batch`, in batch order, all carrying the same
      tag and query. */
  function LabelledRows(tag: string, query: string, batch: seq<string>): seq<Row>
  {
    seq(|batch|, i requires 0 <= i < |batch| => Row(tag, query, batch[i]))
  }

  /** The rows of one modifier's group, in the order the modifiers are given. */
  function ModifierRows(seed: string, position: string, mods: seq<string>, results: map<string, seq<string>>): seq<Row>
    decreases |mods|
  {
    if mods == [] then []
    else
      LabelledRows(mods[0], Query(seed, mods[0], position), Batch(results, mods[0]))
        + ModifierRows(seed, position, mods[1..], results)
  }

  /** `all_data`: the bare seed's rows, then every modifier's rows with the
      modifiers taken in `sorted` order. */
  function Assemble(seed: string, position: string, vocab: seq<string>, results: map<string, seq<string>>): (rows: seq<Row>)
    ensures |rows| == |Batch(results, BareKey)| + BatchTotal(results, vocab)
  {
    ModifierRowsLength(seed, position, Sort(vocab), results);
    BatchTotalSort(results, vocab);
    LabelledRows(NoModifier, seed, Batch(results, BareKey))
      + ModifierRows(seed, position, Sort(vocab), results)
  }

  /** The suggestions of the rows labelled `tag`, in row order: the filter
      `[item for item in all_data if item["Modifikatorius"] == tag]`. */
  function Suggestions(rows: seq<Row>, tag: string): seq<string>
    decreases |rows|
  {
    if rows == [] then []
    else (if rows[0].modifier == tag then [rows[0].suggestion] else []) + Suggestions(rows[1..], tag)
  }

  /** The rows whose tag is not `tag`, in row order. */
  function Without(rows: seq<Row>, tag: string): seq<Row>
    decreases |rows|
  {
    if rows == [] then []
    else (if rows[0].modifier != tag then [rows[0]] else []) + Without(rows[1..], tag)
  }

  /** The sum of the batch lengths of `mods`. */
  function BatchTotal(results: map<string, seq<string>>, mods: seq<string>): nat
    decreases |mods|
  {
    if mods == [] then 0 else |Batch(results, mods[0])| + BatchTotal(results, mods[1..])
  }

  /** Every row carries a modifier of `mods` and the query built from it. */
  ghost predicate LabelledFrom(rows: seq<Row>, seed: string, position: string, mods: seq<string>)
  {
    forall i :: 0 <= i < |rows| ==>
      rows[i].modifier in mods && rows[i].query == Query(seed, rows[i].modifier, position)
  }

  /** The row labels never go down in the order of `sorted`. */
  ghost predicate LabelsAscending(rows: seq<Row>)
  {
    forall i, j :: 0 <= i < j < |rows| ==> LexLe(rows[i].modifier, rows[j].modifier)
  }

  // ---------------------------------------------------------------------------
  // Filtering laws

  lemma {:induction false} SuggestionsConcat(a: seq<Row>, b: seq<Row>, tag: string)
    ensures Suggestions(a + b, tag) == Suggestions(a, tag) + Suggestions(b, tag)
    decreases |a|
  {
    if a != [] {
      assert (a + b)[0] == a[0];
      assert (a + b)[1..] == a[1..] + b;
      SuggestionsConcat(a[1..], b, tag);
      var head := if a[0].modifier == tag then [a[0].suggestion] else [];
      assert Suggestions(a + b, tag) == head + (Suggestions(a[1..], tag) + Suggestions(b, tag));
      assert Suggestions(a, tag) == head + Suggestions(a[1..], tag);
    } else {
      assert a + b == b;
    }
  }

  lemma {:induction false} WithoutConcat(a: seq<Row>, b: seq<Row>, tag: string)
    ensures Without(a + b, tag) == Without(a, tag) + Without(b, tag)
    decreases |a|
  {
    if a != [] {
      assert (a + b)[0] == a[0];
      assert (a + b)[1..] == a[1..] + b;
      WithoutConcat(a[1..], b, tag);
      var head := if a[0].modifier != tag then [a[0]] else [];
      assert Without(a + b, tag) == head + (Without(a[1..], tag) + Without(b, tag));
      assert Without(a, tag) == head + Without(a[1..], tag);
    } else {
      assert a + b == b;
    }
  }

  /** Filtering a uniformly labelled block yields its batch or nothing. */
  lemma {:induction false} SuggestionsOfLabelled(l: string, q: string, batch: seq<string>, tag: string)
    ensures Suggestions(LabelledRows(l, q, batch), tag) == if l == tag then batch else []
    decreases |batch|
  {
    if batch != [] {
      var rows := LabelledRows(l, q, batch);
      assert rows[0] == Row(l, q, batch[0]);
      assert rows[1..] == LabelledRows(l, q, batch[1..]);
      SuggestionsOfLabelled(l, q, batch[1..], tag);
      assert Suggestions(rows, tag) == (if l == tag then [batch[0]] else []) + Suggestions(rows[1..], tag);
      assert batch == [batch[0]] + batch[1..];
    }
  }

  lemma {:induction false} WithoutLabelled(l: string, q: string, batch: seq<string>, tag: string)
    ensures Without(LabelledRows(l, q, batch), tag) == if l == tag then [] else LabelledRows(l, q, batch)
    decreases |batch|
  {
    if batch != [] {
      assert LabelledRows(l, q, batch)[1..] == LabelledRows(l, q, batch[1..]);
      WithoutLabelled(l, q, batch[1..], tag);
      assert LabelledRows(l, q, batch) == [LabelledRows(l, q, batch)[0]] + LabelledRows(l, q, batch[1..]);
    }
  }

  // ---------------------------------------------------------------------------
  // The modifier part of the table

  /** With distinct modifiers, filtering the modifier rows by one modifier gives
      back exactly its batch, in batch order. */
  lemma {:induction false} ModifierRowsSuggestions(seed: string, position: string, mods: seq<string>,
                                                    results: map<string, seq<string>>, tag: string)
    requires Distinct(mods)
    ensures Suggestions(ModifierRows(seed, position, mods, results), tag)
         == if tag in mods then Batch(results, tag) else []
    decreases |mods|
  {
    if mods != [] {
      var m := mods[0];
      var block := LabelledRows(m, Query(seed, m, position), Batch(results, m));
      SuggestionsConcat(block, ModifierRows(seed, position, mods[1..], results), tag);
      SuggestionsOfLabelled(m, Query(seed, m, position), Batch(results, m), tag);
      ModifierRowsSuggestions(seed, position, mods[1..], results, tag);
      assert tag in mods <==> tag == m || tag in mods[1..];
      if tag == m {
        assert tag !in mods[1..];
      }
    }
  }

  /** Every modifier row carries a modifier of `mods` and that modifier's query. */
  lemma {:induction false} ModifierRowsLabelled(seed: string, position: string, mods: seq<string>,
                                                results: map<string, seq<string>>)
    ensures LabelledFrom(ModifierRows(seed, position, mods, results), seed, position, mods)
    decreases |mods|
  {
    if mods != [] {
      var m := mods[0];
      var block := LabelledRows(m, Query(seed, m, position), Batch(results, m));
      var rest := ModifierRows(seed, position, mods[1..], results);
      var rows: seq<Row> := block + rest;
      ModifierRowsLabelled(seed, position, mods[1..], results);
      forall i | 0 <= i < |rows|
        ensures rows[i].modifier in mods
        ensures rows[i].query == Query(seed, rows[i].modifier, position)
      {
        if i >= |block| {
          assert rows[i] == rest[i - |block|];
          assert rest[i - |block|].modifier in mods[1..];
        }
      }
    }
  }

  /** With the modifiers in sorted order, the row labels never go down. */
  lemma {:induction false} ModifierRowsAscending(seed: string, position: string, mods: seq<string>,
                                                 results: map<string, seq<string>>)
    requires Sorted(mods)
    ensures LabelsAscending(ModifierRows(seed, position, mods, results))
    decreases |mods|
  {
    if mods != [] {
      var m := mods[0];
      var block := LabelledRows(m, Query(seed, m, position), Batch(results, m));
      var rest := ModifierRows(seed, position, mods[1..], results);
      ModifierRowsAscending(seed, position, mods[1..], results);
      ModifierRowsLabelled(seed, position, mods[1..], results);
      LexLeReflexive(m);
      forall j | 0 <= j < |rest|
        ensures LexLe(m, rest[j].modifier)
      {
        assert rest[j].modifier in mods[1..];
      }
      AscendingConcat(block, rest);
    }
  }

  lemma AscendingConcat(a: seq<Row>, b: seq<Row>)
    requires LabelsAscending(a) && LabelsAscending(b)
    requires forall i, j :: 0 <= i < |a| && 0 <= j < |b| ==> LexLe(a[i].modifier, b[j].modifier)
    ensures LabelsAscending(a + b)
  {
    forall i, j | 0 <= i < j < |a + b|
      ensures LexLe((a + b)[i].modifier, (a + b)[j].modifier)
    {
      if j < |a| {
      } else if i < |a| {
        assert (a + b)[j] == b[j - |a|];
      } else {
        assert (a + b)[i] == b[i - |a|] && (a + b)[j] == b[j - |a|];
      }
    }
  }

  lemma {:induction false} ModifierRowsLength(seed: string, position: string, mods: seq<string>,
                                              results: map<string, seq<string>>)
    ensures |ModifierRows(seed, position, mods, results)| == BatchTotal(results, mods)
    decreases |mods|
  {
    if mods != [] {
      ModifierRowsLength(seed, position, mods[1..], results);
    }
  }

  /** Inserting a modifier adds its batch length, wherever it lands. */
  lemma {:induction false} BatchTotalInsert(results: map<string, seq<string>>, x: string, s: seq<string>)
    requires Sorted(s)
    ensures BatchTotal(results, Insert(x, s)) == |Batch(results, x)| + BatchTotal(results, s)
    decreases |s|
  {
    if s != [] && !LexLe(x, s[0]) {
      BatchTotalInsert(results, x, s[1..]);
      assert Insert(x, s)[1..] == Insert(x, s[1..]);
    }
  }

  /** Visiting the modifiers in sorted order visits the same batches. */
  lemma {:induction false} BatchTotalSort(results: map<string, seq<string>>, s: seq<string>)
    ensures BatchTotal(results, Sort(s)) == BatchTotal(results, s)
    decreases |s|
  {
    if s != [] {
      BatchTotalSort(results, s[1..]);
      BatchTotalInsert(results, s[0], Sort(s[1..]));
    }
  }

  // ---------------------------------------------------------------------------
  // The whole table

  /** The table layout: first the bare seed's rows in batch order, labelled
      `NoModifier` with the seed as query; after them only modifier rows, each
      with its modifier's query, the modifiers in ascending order. */
  lemma AssembleLayout(seed: string, position: string, vocab: seq<string>, results: map<string, seq<string>>)
    ensures var rows := Assemble(seed, position, vocab, results);
      var base := Batch(results, BareKey);
      && |base| <= |rows|
      && (forall i :: 0 <= i < |base| ==> rows[i] == Row(NoModifier, seed, base[i]))
      && LabelledFrom(rows[|base|..], seed, position, vocab)
      && LabelsAscending(rows[|base|..])
  {
    var base := Batch(results, BareKey);
    var sorted := Sort(vocab);
    var rest := ModifierRows(seed, position, sorted, results);
    var rows := Assemble(seed, position, vocab, results);
    assert rows[|base|..] == rest;
    ModifierRowsLabelled(seed, position, sorted, results);
    ModifierRowsAscending(seed, position, sorted, results);
    forall i | 0 <= i < |rest|
      ensures rest[i].modifier in vocab
    {
      assert rest[i].modifier in multiset(sorted);
    }
  }

  /** The table has one row per suggestion of every batch: the bare seed's
      plus each modifier's; a failed fetch contributes none. */
  lemma AssembleCount(seed: string, position: string, vocab: seq<string>, results: map<string, seq<string>>)
    ensures |Assemble(seed, position, vocab, results)| == |Batch(results, BareKey)| + BatchTotal(results, vocab)
  {
    ModifierRowsLength(seed, position, Sort(vocab), results);
    BatchTotalSort(results, vocab);
  }

  /** Within the table, the rows of the bare seed and of each modifier hold
      exactly that fetch's suggestions, in the order the endpoint gave them. */
  lemma AssembleGroups(seed: string, position: string, vocab: seq<string>, results: map<string, seq<string>>)
    requires Distinct(vocab) && NoModifier !in vocab
    ensures Suggestions(Assemble(seed, position, vocab, results), NoModifier) == Batch(results, BareKey)
    ensures forall m :: m in vocab ==> Suggestions(Assemble(seed, position, vocab, results), m) == Batch(results, m)
    ensures forall t :: t != NoModifier && t !in vocab ==> Suggestions(Assemble(seed, position, vocab, results), t) == []
  {
    var sorted := Sort(vocab);
    SortOfDistinct(vocab);
    var base := LabelledRows(NoModifier, seed, Batch(results, BareKey));
    var rest := ModifierRows(seed, position, sorted, results);
    forall t
      ensures Suggestions(base + rest, t) == (if t == NoModifier then Batch(results, BareKey) else [])
                                           + (if t in vocab then Batch(results, t) else [])
    {
      SuggestionsConcat(base, rest, t);
      SuggestionsOfLabelled(NoModifier, seed, Batch(results, BareKey), t);
      ModifierRowsSuggestions(seed, position, sorted, results, t);
    }
  }

  /** Emptying one modifier's batch removes exactly that modifier's rows. */
  lemma {:induction false} ModifierRowsWithout(seed: string, position: string, mods: seq<string>,
                                               rf: map<string, seq<string>>, rg: map<string, seq<string>>, x: string)
    requires forall k :: k in mods && k != x ==> Batch(rg, k) == Batch(rf, k)
    requires Batch(rg, x) == []
    ensures ModifierRows(seed, position, mods, rg) == Without(ModifierRows(seed, position, mods, rf), x)
    decreases |mods|
  {
    if mods != [] {
      var m := mods[0];
      var q := Query(seed, m, position);
      ModifierRowsWithout(seed, position, mods[1..], rf, rg, x);
      WithoutConcat(LabelledRows(m, q, Batch(rf, m)), ModifierRows(seed, position, mods[1..], rf), x);
      WithoutLabelled(m, q, Batch(rf, m), x);
    }
  }

  /** A failed fetch for modifier `x` leaves the table exactly as it would
      have been, minus `x`'s rows: the sweep does not abort and no other row
      changes. */
  lemma RowsFailureIsolated(seed: string, vocab: seq<string>, position: string, f: Fetch, g: Fetch, x: string)
    requires x in vocab && BareKey !in vocab && NoModifier !in vocab
    requires g(Query(seed, x, position)) == []
    requires forall q :: q != Query(seed, x, position) ==> g(q) == f(q)
    ensures Assemble(seed, position, vocab, Sweep(seed, vocab, position, g).results)
         == Without(Assemble(seed, position, vocab, Sweep(seed, vocab, position, f).results), x)
  {
    var rf := Sweep(seed, vocab, position, f).results;
    var rg := Sweep(seed, vocab, position, g).results;
    SweepFailureIsolated(seed, vocab, position, f, g, x);
    var base := LabelledRows(NoModifier, seed, Batch(rf, BareKey));
    assert Batch(rg, BareKey) == Batch(rf, BareKey);
    forall k | k in Sort(vocab) && k != x
      ensures Batch(rg, k) == Batch(rf, k)
    {
    }
    ModifierRowsWithout(seed, position, Sort(vocab), rf, rg, x);
    WithoutConcat(base, ModifierRows(seed, position, Sort(vocab), rf), x);
    WithoutLabelled(NoModifier, seed, Batch(rf, BareKey), x);
  }
}
