# Keyword modifier sweep

A Dafny model of the search button of `streamlit_app.py`, a Streamlit page that
expands one seed keyword into search-suggestion lists. When the button is
pressed with a non-empty seed, the page does five things:

- It builds a vocabulary of modifiers: the letters a–z, the digits 0–9 and seven
  Lithuanian question words. Each category has its own check box.
- It fetches suggestions for the bare seed once.
- It fetches suggestions once per modifier. The query is `seed modifier` when
  the position option is "po" and `modifier seed` otherwise.
- It assembles a table with one row per suggestion: the bare seed's rows first,
  labelled "(nėra)", then every modifier's rows, modifiers in `sorted` order.
- It shows one titled group per modifier whose fetch found something, plus two
  numbers: the unique suggestions and the modifiers swept.

The suggestion endpoint is the parameter `fetch: string -> seq<string>`. A failed
request, whether a non-200 status or an exception, is the empty list, which is
how the source's `get_google_suggestions` reports failure. `fetch` is total,
so every request is taken to return. Everything else is pure functions over
sequences and maps.

Modules, in dependency order:

- `Wrappers`: `Option` and `Result`.
- `StringOrder`: the code-point lexicographic order that Python uses to compare
  `str`, proved to be a total order and equal to the textbook prefix-or-first-difference
  definition; a functional insertion sort proved to be the unique sorted
  permutation, so it agrees with Python's `sorted` on every input.
- `Vocabulary`: the modifier list and its well-formedness.
- `Queries`: the query text and its inverse.
- `ModifierSweep`: the fetch loop, with an explicit trace of the queries sent.
- `Rows`: the result table.
- `Display`: the groups shown per modifier and the summary numbers.
- `Engine`: the button end to end, including the empty-seed error.

## Model

| member | source | states |
|---|---|---|
| Vocabulary.Build | streamlit_app.py:98-111 | the vocabulary is letters, then digits, then question words, each only when its flag is set; its length is 26·L + 10·N + 7·Q, a string is in it exactly when it is in a switched-on category, and it is empty with all flags off |
| Vocabulary.CategoriesSpelledOut | streamlit_app.py:102-106 | the letter and digit categories are the literal lists "a"…"z" and "0"…"9" |
| Vocabulary.ModifierLengths | streamlit_app.py:98-111 | every modifier has one to five characters |
| Vocabulary.BuildDistinct | streamlit_app.py:98-111 | no modifier occurs twice in any vocabulary |
| Vocabulary.BuildWellFormed | streamlit_app.py:98-114 | the vocabulary has no duplicates and contains neither the bare-seed key "" nor the row label "(nėra)", so neither collides with a modifier |
| Queries.Query | streamlit_app.py:124-127 | the query is the seed and the modifier joined by one space, seed first for "po" and modifier first for any other position; its contract gives the length, and its layout is stated by `Queries.QueryShape` and the round trip `Queries.ModifierOfQuery` / `Queries.QueryOfModifier` |
| Queries.QueryShape | streamlit_app.py:124-127 | for "po" the query is the seed, a space, then the modifier; for any other position it is the modifier, a space, then the seed |
| Queries.ModifierOfQuery | streamlit_app.py:124-127 | splitting a query built for a seed gives the modifier back |
| Queries.QueryOfModifier | streamlit_app.py:124-127 | a query that splits into a modifier is the one built from that modifier |
| Queries.QueryInjective | streamlit_app.py:124-127 | different modifiers give different queries for the same seed and position |
| ModifierSweep.SweepUpTo | streamlit_app.py:114-130 | the state of the fetch loop after n iterations: n + 1 queries sent, the seed first, and the key "" stored; what it holds is stated by `ModifierSweep.SweepUpToIssued`, `SweepUpToKeys`, `SweepUpToBatches` and `SweepUpToBareBatch` |
| ModifierSweep.SweepUpToIssued | streamlit_app.py:121-130 | after n loop iterations the trace is the seed followed by the first n modifier queries, in vocabulary order |
| ModifierSweep.SweepUpToKeys | streamlit_app.py:114-130 | after n iterations the stored keys are exactly "" and the first n modifiers |
| ModifierSweep.SweepUpToBatches | streamlit_app.py:129-130 | after n iterations each of the first n modifiers holds its own query's answer |
| ModifierSweep.SweepUpToBareBatch | streamlit_app.py:114 | the key "" holds the bare seed's answer unless a modifier spelled "" overwrote it |
| ModifierSweep.Sweep | streamlit_app.py:114-130 | the sweep sends the seed first and then one query per modifier in vocabulary order, one more fetch than there are modifiers; it stores every modifier and "" as keys, each with its own fetch's answer, a failure being an empty batch |
| ModifierSweep.SweepFetchesEachOnce | streamlit_app.py:114-130 | the bare seed and every modifier query are each sent exactly once |
| ModifierSweep.SweepFailureIsolated | streamlit_app.py:129-130 | a failed fetch for one modifier leaves the same queries sent and the same keys stored, empties only that modifier's batch, and changes no other batch |
| Rows.Assemble | streamlit_app.py:143-165 | `all_data`: the bare seed's rows, then each modifier's rows with the modifiers in sorted order; its contract gives the row count (one per suggestion of every batch), and its layout is stated by `Rows.AssembleLayout` and `Rows.AssembleGroups` |
| Rows.AssembleLayout | streamlit_app.py:143-165 | the table starts with the bare seed's rows in batch order, labelled "(nėra)" with the seed as query; after them come only modifier rows, each with its modifier's query, in ascending modifier order |
| Rows.AssembleGroups | streamlit_app.py:146-165 | the rows labelled "(nėra)" are exactly the bare-seed batch, and the rows labelled with a modifier are exactly that modifier's batch, in the order received; no other label occurs |
| Rows.AssembleCount | streamlit_app.py:146-165 | the number of rows is the bare batch's length plus the sum of the modifier batches' lengths |
| Rows.ModifierRowsLength | streamlit_app.py:154-165 | the modifier rows number the sum of the batch lengths of the modifiers |
| Rows.BatchTotalSort | streamlit_app.py:154 | taking the modifiers in sorted order does not change the total number of rows |
| Rows.RowsFailureIsolated | streamlit_app.py:146-165 | a failed fetch for one modifier yields the table that would otherwise have been built, minus that modifier's rows |
| Display.DisplayGroups | streamlit_app.py:187-201 | the groups shown below the table: at most one per modifier, and only for a modifier stored with a non-empty batch; that there is exactly one for every such modifier, in ascending order, with its query and batch, is stated by `Display.DisplayGroupsExact` |
| Display.DisplayGroupsExact | streamlit_app.py:179-201 | the groups are exactly the modifiers whose fetch found something, in strictly ascending order, each with its query and its batch as shown suggestions |
| Display.UniqueCount | streamlit_app.py:216 | the unique count is at most the number of rows, and zero exactly when the table is empty |
| Display.UniqueCountAsWritten | streamlit_app.py:216 | the statistic as written fails exactly when the table is empty |
| Display.UniqueCountAsWrittenAgrees | streamlit_app.py:216 | on a non-empty table the statistic as written equals the corrected one |
| Display.AllFetchesFailedStatistic | streamlit_app.py:216 | when every fetch fails, the statistic as written fails and the corrected one is 0 |
| Display.SuggestionSetOfAssemble | streamlit_app.py:216 | the distinct suggestion strings of the table are those of the bare batch together with those of every modifier's batch |
| Engine.Search | streamlit_app.py:90-217 | an empty seed is refused; the refusal carries no trace, so no fetch is issued; otherwise the report is the sweep of the vocabulary the flags build, so the `Engine.Tabulate*` lemmas below describe it; the modifier count is 1 + 26·L + 10·N + 7·Q and equals the number of fetches, the seed is fetched first, the seed's table is its fetch's answer, and the corrected unique count is at most the number of rows |
| Engine.SearchStatisticAsWritten | streamlit_app.py:216 | a search with a non-empty seed succeeds; the statistic as the page computes it fails exactly when the search's table is empty and otherwise equals the report's unique count |
| Engine.SearchAllFetchesFailed | streamlit_app.py:216 | when every fetch fails, a search with a non-empty seed reports a unique count of 0 where the statistic as written fails |
| Engine.TabulateFetchesEachOnce | streamlit_app.py:114-130 | in a search every query is sent exactly once |
| Engine.TabulateTable | streamlit_app.py:143-165 | the table of a search lists the seed's answer first, then only modifier rows in ascending order, each modifier's rows being its fetch's answer, one row per suggestion |
| Engine.TabulateGroups | streamlit_app.py:187-201 | the groups of a search are ascending, each shows a modifier's query and that query's non-empty answer, and every modifier with a non-empty answer has one |
| Engine.TabulateUniqueCount | streamlit_app.py:216 | the unique count is the number of distinct strings among the answers to the bare seed and every modifier query |
| StringOrder.LexLeMatchesDefinition | streamlit_app.py:154 | the comparison used for `sorted` is the prefix-or-first-smaller-character order on code points |
| StringOrder.LexLeTotal | streamlit_app.py:154 | any two strings are comparable |
| StringOrder.LexLeTransitive | streamlit_app.py:154 | the order is transitive |
| StringOrder.LexLeAntisymmetric | streamlit_app.py:154 | two strings each at most the other are equal |
| StringOrder.Sort | streamlit_app.py:154 | the sorted modifiers are in ascending order and are a permutation of the vocabulary |
| StringOrder.SortedPermutationUnique | streamlit_app.py:154 | two ascending permutations of the same list are equal, so any correct sort yields this order |
| StringOrder.SortOfDistinct | streamlit_app.py:154 | sorting a duplicate-free vocabulary gives a strictly ascending list with the same members and length |

## Left out

- The Streamlit page is not modelled: page setup, CSS and markdown, sidebar widgets, tables, the download button and session state (streamlit_app.py:8-34, 63-87, 168-212, 219-236). It is presentation only. The display groups and numbers are modelled as data.
- The HTTP request inside `get_google_suggestions` is not modelled: URL, headers, JSON indexing `[1]` and warning texts (streamlit_app.py:37-61). It is a foreign network call; `fetch` replaces it, with `[]` for a failure.
- Stalled requests are not modelled. `requests.get` at streamlit_app.py:52 passes no timeout, so a connection that never answers blocks the sweep indefinitely; that is neither an exception nor a non-200 status. The total `fetch` returns on every call, so the sweep always completing is a property of this abstraction, not of the page.
- Engine.Search: its report carries the corrected unique count `Display.UniqueCount`, also when the table is empty. There the page raises `KeyError` at streamlit_app.py:216 and never shows the modifier count at line 217 (see "## Findings"). `Engine.SearchStatisticAsWritten` and `Engine.SearchAllFetchesFailed` relate the report to the statistic as written.
- Country and language are not modelled. They only reach the endpoint, so they live inside `fetch`.
- The progress bar and the random pause between fetches are not modelled (streamlit_app.py:117-118, 122, 133-140). They are timing, randomness and floating point, with no effect on results.
- pandas and the CSV export are not modelled (streamlit_app.py:168, 206). A table is a sequence of `Row`, and `DataFrame` is only used for its empty/non-empty test and its column lookup.
- Display: a group's "nothing found" branch (streamlit_app.py:200-201) has no model of its own. `Display.DisplayGroupsExact` proves it is never reached.
- The error message for an empty seed (streamlit_app.py:92) is not modelled. The refusal itself is `Failure(EmptySeed)`.

## Findings

| source | as written | input that shows it | evidently intended | confidence | as-written member | corrected member |
|---|---|---|---|---|---|---|
| streamlit_app.py:216 | `len(df['Pasiūlymas'].unique())` indexes a column of `pd.DataFrame(all_data)`; when `all_data` is empty the DataFrame has no columns and the lookup raises `KeyError` | any non-empty seed for which every fetch fails, e.g. the endpoint unreachable, so no row is assembled | report 0 unique suggestions, as the base table does with "Nerasta pasiūlymų." at line 184 | high, not executed | Display.UniqueCountAsWritten, Display.AllFetchesFailedStatistic | Display.UniqueCount |
