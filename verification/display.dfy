/** What the page shows after the sweep: the bare seed's table, one titled
    table per modifier that found something (streamlit_app.py:176-201), and
    the two summary numbers (streamlit_app.py:214-217). */
module Display {
  import opened Wrappers
  import opened StringOrder
  import opened Queries
  import opened ModifierSweep
  import opened Rows

  /** One modifier heading, with its query, over the table of its rows'
      suggestions. */
  datatype Group = Group(modifier: string, query: string, suggestions: seq<string>)

  /** The suggestions shown under the seed heading: the rows labelled
      `NoModifier`. */
  function BaseTable(rows: seq<Row>): seq<string>
  {
    Suggestions(rows, NoModifier)
  }

  /** The loop over `sorted(all_modifiers)`: a group only for a modifier that
      is a key of `modifier_results` with a non-empty list. */
  function DisplayGroups(seed: string, position: string, mods: seq<string>,
                         results: map<string, seq<string>>, rows: seq<Row>): (gs: seq<Group>)
    ensures |gs| <= |mods|
    ensures forall i :: 0 <= i < |gs| ==> gs[i].modifier in mods && gs[i].modifier in results && results[gs[i].modifier] != []
    decreases |mods|
  {
    if mods == [] then []
    else
      var m := mods[0];
      (if m in results && results[m] != [] then [Group(m, Query(seed, m, position), Suggestions(rows, m))] else [])
        + DisplayGroups(seed, position, mods[1..], results, rows)
  }

  /** Every group is for a modifier of `mods` whose batch is non-empty, and
      shows that modifier's query and its filtered rows. */
  ghost predicate GroupsFrom(gs: seq<Group>, seed: string, position: string, mods: seq<string>,
                             results: map<string, seq<string>>, rows: seq<Row>)
  {
    forall i :: 0 <= i < |gs| ==>
      && gs[i].modifier in mods
      && Batch(results, gs[i].modifier) != []
      && gs[i].query == Query(seed, gs[i].modifier, position)
      && gs[i].suggestions == Suggestions(rows, gs[i].modifier)
  }

  /** Every modifier of `mods` whose batch is non-empty has a group. */
  ghost predicate GroupsCover(gs: seq<Group>, mods: seq<string>, results: map<string, seq<string>>)
  {
    forall m :: m in mods && Batch(results, m) != [] ==> exists i :: 0 <= i < |gs| && gs[i].modifier == m
  }

  /** The group headings appear in strictly ascending order. */
  ghost predicate GroupsAscending(gs: seq<Group>)
  {
    forall i, j :: 0 <= i < j < |gs| ==> LexLt(gs[i].modifier, gs[j].modifier)
  }

  lemma {:induction false} DisplayGroupsMembers(seed: string, position: string, mods: seq<string>,
                                                results: map<string, seq<string>>, rows: seq<Row>)
    ensures GroupsFrom(DisplayGroups(seed, position, mods, results, rows), seed, position, mods, results, rows)
    decreases |mods|
  {
    if mods != [] {
      var m := mods[0];
      var head := if m in results && results[m] != [] then [Group(m, Query(seed, m, position), Suggestions(rows, m))] else [];
      var rest := DisplayGroups(seed, position, mods[1..], results, rows);
      var gs := head + rest;
      DisplayGroupsMembers(seed, position, mods[1..], results, rows);
      forall i | 0 <= i < |gs|
        ensures gs[i].modifier in mods && Batch(results, gs[i].modifier) != []
        ensures gs[i].query == Query(seed, gs[i].modifier, position)
        ensures gs[i].suggestions == Suggestions(rows, gs[i].modifier)
      {
        if i >= |head| {
          assert gs[i] == rest[i - |head|];
          assert rest[i - |head|].modifier in mods[1..];
        } else {
          assert gs[i] == head[0];
        }
      }
    }
  }

  lemma {:induction false} DisplayGroupsCovers(seed: string, position: string, mods: seq<string>,
                                               results: map<string, seq<string>>, rows: seq<Row>)
    ensures GroupsCover(DisplayGroups(seed, position, mods, results, rows), mods, results)
    decreases |mods|
  {
    if mods != [] {
      var m := mods[0];
      var head := if m in results && results[m] != [] then [Group(m, Query(seed, m, position), Suggestions(rows, m))] else [];
      var rest := DisplayGroups(seed, position, mods[1..], results, rows);
      var gs := head + rest;
      DisplayGroupsCovers(seed, position, mods[1..], results, rows);
      forall n | n in mods && Batch(results, n) != []
        ensures exists i :: 0 <= i < |gs| && gs[i].modifier == n
      {
        if n == m {
          assert gs[0].modifier == n;
        } else {
          assert n in mods[1..];
          var i :| 0 <= i < |rest| && rest[i].modifier == n;
          assert gs[|head| + i] == rest[i];
        }
      }
    }
  }

  /** Modifiers in strictly ascending order give groups in strictly ascending
      order. */
  lemma {:induction false} DisplayGroupsAscending(seed: string, position: string, mods: seq<string>,
                                                  results: map<string, seq<string>>, rows: seq<Row>)
    requires StrictlyAscending(mods)
    ensures GroupsAscending(DisplayGroups(seed, position, mods, results, rows))
    decreases |mods|
  {
    if mods != [] {
      var m := mods[0];
      var head := if m in results && results[m] != [] then [Group(m, Query(seed, m, position), Suggestions(rows, m))] else [];
      var rest := DisplayGroups(seed, position, mods[1..], results, rows);
      var gs := head + rest;
      DisplayGroupsAscending(seed, position, mods[1..], results, rows);
      DisplayGroupsMembers(seed, position, mods[1..], results, rows);
      forall i, j | 0 <= i < |head| && 0 <= j < |rest|
        ensures LexLt(head[i].modifier, rest[j].modifier)
      {
        var later := rest[j].modifier;
        assert later in mods[1..];
        var k :| 0 <= k < |mods[1..]| && mods[1..][k] == later;
        assert mods[k + 1] == later;
      }
      GroupsAscendingConcat(head, rest);
    }
  }

  lemma GroupsAscendingConcat(a: seq<Group>, b: seq<Group>)
    requires GroupsAscending(a) && GroupsAscending(b)
    requires forall i, j :: 0 <= i < |a| && 0 <= j < |b| ==> LexLt(a[i].modifier, b[j].modifier)
    ensures GroupsAscending(a + b)
  {
    forall i, j | 0 <= i < j < |a + b|
      ensures LexLt((a + b)[i].modifier, (a + b)[j].modifier)
    {
      if j < |a| {
      } else if i < |a| {
        assert (a + b)[j] == b[j - |a|];
      } else {
        assert (a + b)[i] == b[i - |a|] && (a + b)[j] == b[j - |a|];
      }
    }
  }

  /** The groups on the page are exactly the modifiers whose fetch returned
      something, in ascending order, each listing that fetch's suggestions in
      the order received; so the "nothing found" branch of a group is never
      taken. */
  lemma DisplayGroupsExact(seed: string, position: string, vocab: seq<string>, results: map<string, seq<string>>)
    requires Distinct(vocab) && NoModifier !in vocab
    ensures var gs := DisplayGroups(seed, position, Sort(vocab), results, Assemble(seed, position, vocab, results));
      forall i :: 0 <= i < |gs| ==>
        && gs[i].modifier in vocab
        && gs[i].suggestions == Batch(results, gs[i].modifier)
        && gs[i].suggestions != []
        && gs[i].query == Query(seed, gs[i].modifier, position)
    ensures GroupsCover(DisplayGroups(seed, position, Sort(vocab), results, Assemble(seed, position, vocab, results)), vocab, results)
    ensures GroupsAscending(DisplayGroups(seed, position, Sort(vocab), results, Assemble(seed, position, vocab, results)))
  {
    var rows := Assemble(seed, position, vocab, results);
    SortOfDistinct(vocab);
    AssembleGroups(seed, position, vocab, results);
    DisplayGroupsMembers(seed, position, Sort(vocab), results, rows);
    DisplayGroupsCovers(seed, position, Sort(vocab), results, rows);
    DisplayGroupsAscending(seed, position, Sort(vocab), results, rows);
  }

  // ---------------------------------------------------------------------------
  // Summary numbers

  /** The distinct values of the `Pasiūlymas` column. */
  function SuggestionSet(rows: seq<Row>): set<string>
  {
    set i | 0 <= i < |rows| :: rows[i].suggestion
  }

  /** The unique-suggestion count shown under "Statistika": zero for an empty
      table, otherwise at least one and never more than the number of rows. */
  function UniqueCount(rows: seq<Row>): (n: nat)
    ensures n <= |rows|
    ensures n == 0 <==> rows == []
  {
    SuggestionSetSize(rows);
    assert rows != [] ==> rows[0].suggestion in SuggestionSet(rows);
    |SuggestionSet(rows)|
  }

  /** `len(df['Pasiūlymas'].unique())` as written: a DataFrame built from an
      empty list has no `Pasiūlymas` column, so the lookup raises `KeyError`
      (`None`) when the table is empty. */
  function UniqueCountAsWritten(rows: seq<Row>): (n: Option<nat>)
    ensures n.None? <==> rows == []
  {
    if rows == [] then None else Some(|SuggestionSet(rows)|)
  }

  lemma {:induction false} SuggestionSetSize(rows: seq<Row>)
    ensures |SuggestionSet(rows)| <= |rows|
    decreases |rows|
  {
    if rows != [] {
      SuggestionSetSize(rows[1..]);
      assert SuggestionSet(rows) == {rows[0].suggestion} + SuggestionSet(rows[1..]) by {
        forall s | s in SuggestionSet(rows)
          ensures s in {rows[0].suggestion} + SuggestionSet(rows[1..])
        {
          var i :| 0 <= i < |rows| && rows[i].suggestion == s;
          if i > 0 {
            assert rows[1..][i - 1] == rows[i];
          }
        }
        forall s | s in SuggestionSet(rows[1..])
          ensures s in SuggestionSet(rows)
        {
          var i :| 0 <= i < |rows[1..]| && rows[1..][i].suggestion == s;
          assert rows[i + 1] == rows[1..][i];
        }
      }
    } else {
      assert SuggestionSet(rows) == {};
    }
  }

  lemma SuggestionSetConcat(a: seq<Row>, b: seq<Row>)
    ensures SuggestionSet(a + b) == SuggestionSet(a) + SuggestionSet(b)
  {
    forall s | s in SuggestionSet(a + b)
      ensures s in SuggestionSet(a) + SuggestionSet(b)
    {
      var i :| 0 <= i < |a + b| && (a + b)[i].suggestion == s;
      if i >= |a| {
        assert (a + b)[i] == b[i - |a|];
      }
    }
    forall s | s in SuggestionSet(b)
      ensures s in SuggestionSet(a + b)
    {
      var i :| 0 <= i < |b| && b[i].suggestion == s;
      assert (a + b)[|a| + i] == b[i];
    }
    forall s | s in SuggestionSet(a)
      ensures s in SuggestionSet(a + b)
    {
      var i :| 0 <= i < |a| && a[i].suggestion == s;
      assert (a + b)[i] == a[i];
    }
  }

  lemma SuggestionSetOfLabelled(l: string, q: string, batch: seq<string>)
    ensures forall s :: s in SuggestionSet(LabelledRows(l, q, batch)) <==> s in batch
  {
    var rows := LabelledRows(l, q, batch);
    forall s | s in batch
      ensures s in SuggestionSet(rows)
    {
      var i :| 0 <= i < |batch| && batch[i] == s;
      assert rows[i].suggestion == s;
    }
  }

  lemma {:induction false} SuggestionSetOfModifierRows(seed: string, position: string, mods: seq<string>,
                                                       results: map<string, seq<string>>)
    ensures forall s :: s in SuggestionSet(ModifierRows(seed, position, mods, results)) <==>
              exists m :: m in mods && s in Batch(results, m)
    decreases |mods|
  {
    if mods != [] {
      var m := mods[0];
      var block := LabelledRows(m, Query(seed, m, position), Batch(results, m));
      SuggestionSetOfModifierRows(seed, position, mods[1..], results);
      SuggestionSetConcat(block, ModifierRows(seed, position, mods[1..], results));
      SuggestionSetOfLabelled(m, Query(seed, m, position), Batch(results, m));
      forall s | exists n :: n in mods && s in Batch(results, n)
        ensures s in Batch(results, m) || exists n :: n in mods[1..] && s in Batch(results, n)
      {
        var n :| n in mods && s in Batch(results, n);
        if n != m {
          assert n in mods[1..];
        }
      }
    }
  }

  /** The distinct suggestions of the table are those of the bare seed's
      batch together with those of every modifier's batch. */
  lemma SuggestionSetOfAssemble(seed: string, position: string, vocab: seq<string>, results: map<string, seq<string>>)
    ensures forall s :: s in SuggestionSet(Assemble(seed, position, vocab, results)) <==>
              s in Batch(results, BareKey) || exists m :: m in vocab && s in Batch(results, m)
  {
    var sorted := Sort(vocab);
    SuggestionSetConcat(LabelledRows(NoModifier, seed, Batch(results, BareKey)), ModifierRows(seed, position, sorted, results));
    SuggestionSetOfLabelled(NoModifier, seed, Batch(results, BareKey));
    SuggestionSetOfModifierRows(seed, position, sorted, results);
    forall m
      ensures m in sorted <==> m in vocab
    {
      assert m in sorted <==> m in multiset(sorted);
      assert m in vocab <==> m in multiset(vocab);
    }
  }

  /** The statistic as written agrees with the corrected count whenever the
      table has a row. */
  lemma UniqueCountAsWrittenAgrees(rows: seq<Row>)
    requires rows != []
    ensures UniqueCountAsWritten(rows) == Some(UniqueCount(rows))
  {
  }

  /** When every fetch fails, the table is empty: the statistic as written
      raises instead of reporting, while the corrected count reports zero. */
  lemma AllFetchesFailedStatistic(seed: string, vocab: seq<string>, position: string, fetch: Fetch)
    requires forall q :: fetch(q) == []
    ensures UniqueCountAsWritten(Assemble(seed, position, vocab, Sweep(seed, vocab, position, fetch).results)).None?
    ensures UniqueCount(Assemble(seed, position, vocab, Sweep(seed, vocab, position, fetch).results)) == 0
  {
    var results := Sweep(seed, vocab, position, fetch).results;
    AssembleCount(seed, position, vocab, results);
    NoBatchesNoRows(results, vocab);
  }

  lemma {:induction false} NoBatchesNoRows(results: map<string, seq<string>>, mods: seq<string>)
    requires forall k :: k in results ==> results[k] == []
    ensures BatchTotal(results, mods) == 0
    decreases |mods|
  {
    if mods != [] {
      NoBatchesNoRows(results, mods[1..]);
    }
  }
}
