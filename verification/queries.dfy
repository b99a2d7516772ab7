/** How a modifier and the seed keyword are joined into one search query
    (streamlit_app.py:124-127, repeated for the row labels at 156-159). */
module Queries {
  import opened Wrappers

  /** The radio option that appends the modifier after the seed; any other
      option puts the modifier in front. */
  const After: string := "po"

  /** `f"{seed} {modifier}"` for "po", `f"{modifier} {seed}"` otherwise. */
  function Query(seed: string, modifier: string, position: string): (q: string)
    ensures |q| == |seed| + 1 + |modifier|
  {
    if position == After then seed + " " + modifier else modifier + " " + seed
  }

  /** The query is the seed, one space and the modifier, in the order the
      position option picks. */
  lemma QueryShape(seed: string, modifier: string, position: string)
    ensures position == After ==>
              (Query(seed, modifier, position)[..|seed|] == seed
               && Query(seed, modifier, position)[|seed|] == ' '
               && Query(seed, modifier, position)[|seed| + 1..] == modifier)
    ensures position != After ==>
              (Query(seed, modifier, position)[..|modifier|] == modifier
               && Query(seed, modifier, position)[|modifier|] == ' '
               && Query(seed, modifier, position)[|modifier| + 1..] == seed)
  {
  }

  /** Recovers the modifier from a query built for `seed`, or `None` when the
      query does not have the shape `Query` produces. */
  function ModifierOf(seed: string, q: string, position: string): (m: Option<string>)
  {
    if |q| <= |seed| then None
    else if position == After then
      if q[..|seed| + 1] == seed + " " then Some(q[|seed| + 1..]) else None
    else
      if q[|q| - |seed| - 1..] == " " + seed then Some(q[..|q| - |seed| - 1]) else None
  }

  /** Joining then splitting gives the modifier back. */
  lemma ModifierOfQuery(seed: string, modifier: string, position: string)
    ensures ModifierOf(seed, Query(seed, modifier, position), position) == Some(modifier)
  {
    var q := Query(seed, modifier, position);
    QueryShape(seed, modifier, position);
    if position == After {
      assert q[..|seed| + 1] == seed + " ";
    } else {
      assert q[|q| - |seed| - 1..] == " " + seed;
    }
  }

  /** Splitting then joining gives the query back. */
  lemma QueryOfModifier(seed: string, q: string, position: string)
    requires ModifierOf(seed, q, position).Some?
    ensures Query(seed, ModifierOf(seed, q, position).value, position) == q
  {
    var m := ModifierOf(seed, q, position).value;
    if position == After {
      assert q == q[..|seed| + 1] + q[|seed| + 1..];
    } else {
      assert q == q[..|q| - |seed| - 1] + q[|q| - |seed| - 1..];
    }
  }

  /** Distinct modifiers give distinct queries, so no query is sent twice. */
  lemma QueryInjective(seed: string, m1: string, m2: string, position: string)
    requires Query(seed, m1, position) == Query(seed, m2, position)
    ensures m1 == m2
  {
    ModifierOfQuery(seed, m1, position);
    ModifierOfQuery(seed, m2, position);
  }

  /** A modified query is never the bare seed. */
  lemma QueryIsNotSeed(seed: string, modifier: string, position: string)
    ensures Query(seed, modifier, position) != seed
  {
  }
}
