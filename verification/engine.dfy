/** The search button end to end (streamlit_app.py:90-217): check the seed,
    build the vocabulary, sweep, assemble the table, the groups and the
    statistics. */
module Engine {
  import opened Wrappers
  import opened StringOrder
  import opened Vocabulary
  import opened Queries
  import opened ModifierSweep
  import opened Rows
  import opened Display

  /** The sidebar settings the sweep depends on; country and language only
      reach the endpoint and live inside `Fetch`. */
  datatype Settings = Settings(flags: Flags, position: string)

  /** Everything one search produces. */
  datatype Report = Report(
    vocabulary: seq<string>,
    log: SweepLog,
    rows: seq<Row>,
    baseTable: seq<string>,
    groups: seq<Group>,
    uniqueSuggestions: nat,
    modifierCount: nat)

  /** The only error: the seed field was left empty. */
  datatype SearchError = EmptySeed

  /** The queries a search sent to the endpoint. */
  function FetchesIssued(r: Result<Report, SearchError>): seq<string>
  {
    if r.Success? then r.value.log.issued else []
  }

  /** The work behind the button once the seed is accepted: sweep `vocab`,
      then lay out the table, the groups and the two numbers. */
  function Tabulate(seed: string, vocab: seq<string>, position: string, fetch: Fetch): Report
  {
    var log := Sweep(seed, vocab, position, fetch);
    var rows := Assemble(seed, position, vocab, log.results);
    var groups := DisplayGroups(seed, position, Sort(vocab), log.results, rows);
    Report(vocab, log, rows, BaseTable(rows), groups, UniqueCount(rows), |vocab| + 1)
  }

  /** The fields of `Tabulate`, one equation each: an unfolding helper that
      spares each lemma below from unfolding `Tabulate` itself. */
  lemma TabulateFields(seed: string, vocab: seq<string>, position: string, fetch: Fetch)
    ensures var rep := Tabulate(seed, vocab, position, fetch);
      var results := Sweep(seed, vocab, position, fetch).results;
      var rows := Assemble(seed, position, vocab, results);
      && rep.vocabulary == vocab
      && rep.log == Sweep(seed, vocab, position, fetch)
      && rep.rows == rows
      && rep.baseTable == BaseTable(rows)
      && rep.groups == DisplayGroups(seed, position, Sort(vocab), results, rows)
      && rep.uniqueSuggestions == UniqueCount(rows)
      && rep.modifierCount == |vocab| + 1
  {
  }

  /** One press of the search button: an empty seed is refused before any
      fetch; otherwise the sweep visits the whole configured vocabulary, given
      that every call of `fetch` returns. The report carries the corrected
      unique count; `SearchStatisticAsWritten` relates it to the statistic as
      the page computes it. */
  function Search(seed: string, settings: Settings, fetch: Fetch): (r: Result<Report, SearchError>)
    ensures r.Failure? <==> seed == ""
    ensures seed != "" ==> r == Success(Tabulate(seed, Build(settings.flags), settings.position, fetch))
    ensures seed == "" ==> FetchesIssued(r) == []
    ensures r.Success? ==>
      && r.value.vocabulary == Build(settings.flags)
      && r.value.modifierCount == 1 + Gate(settings.flags.useLetters, 26) + Gate(settings.flags.useNumbers, 10)
                                    + Gate(settings.flags.useQuestions, 7)
      && |r.value.log.issued| == r.value.modifierCount
      && r.value.log.issued[0] == seed
      && r.value.baseTable == fetch(seed)
      && r.value.uniqueSuggestions <= |r.value.rows|
  {
    if seed == "" then Failure(EmptySeed)
    else
      var vocab := Build(settings.flags);
      BuildWellFormed(settings.flags);
      TabulateFields(seed, vocab, settings.position, fetch);
      TabulateBaseTable(seed, vocab, settings.position, fetch);
      Success(Tabulate(seed, vocab, settings.position, fetch))
  }

  /** The bare seed's table shows the bare seed's fetch, in order. */
  lemma TabulateBaseTable(seed: string, vocab: seq<string>, position: string, fetch: Fetch)
    requires Distinct(vocab) && BareKey !in vocab && NoModifier !in vocab
    ensures Tabulate(seed, vocab, position, fetch).baseTable == fetch(seed)
  {
    TabulateFields(seed, vocab, position, fetch);
    AssembleGroups(seed, position, vocab, Sweep(seed, vocab, position, fetch).results);
  }

  /** A search sends the bare seed once and every modifier query once; the
      reported modifier count is the number of fetches. */
  lemma TabulateFetchesEachOnce(seed: string, vocab: seq<string>, position: string, fetch: Fetch)
    requires Distinct(vocab)
    ensures var rep := Tabulate(seed, vocab, position, fetch);
      && rep.modifierCount == |rep.log.issued|
      && Distinct(rep.log.issued)
      && multiset(rep.log.issued)[seed] == 1
      && forall m :: m in vocab ==> multiset(rep.log.issued)[Query(seed, m, position)] == 1
  {
    TabulateFields(seed, vocab, position, fetch);
    SweepFetchesEachOnce(seed, vocab, position, fetch);
  }

  /** The table of a search: the bare seed's rows first, then only modifier
      rows, ascending by modifier, each modifier's rows holding exactly its
      fetch's suggestions in the order received; one row per suggestion. */
  lemma TabulateTable(seed: string, vocab: seq<string>, position: string, fetch: Fetch)
    requires Distinct(vocab) && BareKey !in vocab && NoModifier !in vocab
    ensures var rows := Tabulate(seed, vocab, position, fetch).rows;
      && |fetch(seed)| <= |rows|
      && (forall i :: 0 <= i < |fetch(seed)| ==> rows[i] == Row(NoModifier, seed, fetch(seed)[i]))
      && LabelledFrom(rows[|fetch(seed)|..], seed, position, vocab)
      && LabelsAscending(rows[|fetch(seed)|..])
      && (forall m :: m in vocab ==> Suggestions(rows, m) == fetch(Query(seed, m, position)))
      && |rows| == |fetch(seed)| + BatchTotal(Sweep(seed, vocab, position, fetch).results, vocab)
  {
    TabulateFields(seed, vocab, position, fetch);
    var results := Sweep(seed, vocab, position, fetch).results;
    AssembleLayout(seed, position, vocab, results);
    AssembleGroups(seed, position, vocab, results);
    AssembleCount(seed, position, vocab, results);
  }

  /** The groups of a search are the modifiers whose fetch found something,
      ascending, each with its query and its fetch's suggestions. */
  lemma TabulateGroups(seed: string, vocab: seq<string>, position: string, fetch: Fetch)
    requires Distinct(vocab) && NoModifier !in vocab
    ensures var gs := Tabulate(seed, vocab, position, fetch).groups;
      && GroupsAscending(gs)
      && (forall i :: 0 <= i < |gs| ==>
            && gs[i].modifier in vocab
            && gs[i].query == Query(seed, gs[i].modifier, position)
            && gs[i].suggestions == fetch(gs[i].query)
            && gs[i].suggestions != [])
      && forall m :: m in vocab && fetch(Query(seed, m, position)) != [] ==>
           exists i :: 0 <= i < |gs| && gs[i].modifier == m
  {
    TabulateFields(seed, vocab, position, fetch);
    var results := Sweep(seed, vocab, position, fetch).results;
    var gs := Tabulate(seed, vocab, position, fetch).groups;
    DisplayGroupsExact(seed, position, vocab, results);
    forall i | 0 <= i < |gs|
      ensures gs[i].suggestions == fetch(gs[i].query)
    {
      var m := gs[i].modifier;
      assert gs[i].suggestions == Batch(results, m) && m in results;
    }
  }

  /** The unique count of a search is the number of distinct strings among
      all the batches it fetched. */
  lemma TabulateUniqueCount(seed: string, vocab: seq<string>, position: string, fetch: Fetch)
    requires BareKey !in vocab
    ensures Tabulate(seed, vocab, position, fetch).uniqueSuggestions
         == |(set s | s in fetch(seed)) + (set m, s | m in vocab && s in fetch(Query(seed, m, position)) :: s)|
  {
    TabulateFields(seed, vocab, position, fetch);
    var results := Sweep(seed, vocab, position, fetch).results;
    var rows := Assemble(seed, position, vocab, results);
    SuggestionSetOfAssemble(seed, position, vocab, results);
    var all := (set s | s in fetch(seed)) + (set m, s | m in vocab && s in fetch(Query(seed, m, position)) :: s);
    assert SuggestionSet(rows) == all;
  }

  /** The statistic as the page computes it: on a search whose table is empty
      it raises instead of showing a number, and otherwise it shows the
      report's unique count. */
  lemma SearchStatisticAsWritten(seed: string, settings: Settings, fetch: Fetch)
    requires seed != ""
    ensures Search(seed, settings, fetch).Success?
    ensures UniqueCountAsWritten(Search(seed, settings, fetch).value.rows).None?
        <==> Search(seed, settings, fetch).value.rows == []
    ensures Search(seed, settings, fetch).value.rows != [] ==>
              UniqueCountAsWritten(Search(seed, settings, fetch).value.rows)
              == Some(Search(seed, settings, fetch).value.uniqueSuggestions)
  {
    var rep := Search(seed, settings, fetch).value;
    TabulateFields(seed, Build(settings.flags), settings.position, fetch);
    if rep.rows != [] {
      UniqueCountAsWrittenAgrees(rep.rows);
    }
  }

  /** When every fetch fails, a search succeeds in the model with a unique
      count of 0, while the statistic as written raises. */
  lemma SearchAllFetchesFailed(seed: string, settings: Settings, fetch: Fetch)
    requires seed != ""
    requires forall q :: fetch(q) == []
    ensures Search(seed, settings, fetch).Success?
    ensures Search(seed, settings, fetch).value.uniqueSuggestions == 0
    ensures UniqueCountAsWritten(Search(seed, settings, fetch).value.rows).None?
  {
    var vocab := Build(settings.flags);
    var rep := Tabulate(seed, vocab, settings.position, fetch);
    assert Search(seed, settings, fetch) == Success(rep);
    TabulateFields(seed, vocab, settings.position, fetch);
    AllFetchesFailedStatistic(seed, vocab, settings.position, fetch);
    assert rep.rows == Assemble(seed, settings.position, vocab, Sweep(seed, vocab, settings.position, fetch).results);
  }
}
