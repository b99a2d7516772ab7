/** The modifier vocabulary swept against the seed keyword
    (streamlit_app.py:98-111). */
module Vocabulary {
  import opened StringOrder

  /** `list('abcdefghijklmnopqrstuvwxyz')`: one-letter strings, alphabetical. */
  function Letters(): seq<string>
  {
    seq(26, i requires 0 <= i < 26 => [('a' as int + i) as char])
  }

  /** `[str(i) for i in range(10)]`: the one-digit strings "0" to "9". */
  function Digits(): seq<string>
  {
    seq(10, i requires 0 <= i < 10 => [('0' as int + i) as char])
  }

  /** The fixed Lithuanian question words, in the order the sweep uses them. */
  const QuestionWords: seq<string> := ["kodėl", "kaip", "ar", "kur", "kada", "kas", "kiek"]

  /** The three sidebar check boxes, each switching one category on. */
  datatype Flags = Flags(useLetters: bool, useNumbers: bool, useQuestions: bool)

  /** The size of the category a flag switches on, or 0 when it is off. */
  function Gate(on: bool, size: nat): nat
  {
    if on then size else 0
  }

  /** `all_modifiers`: letters, then digits, then question words, each
      category only when its flag is set. */
  function Build(f: Flags): (v: seq<string>)
    ensures |v| == Gate(f.useLetters, 26) + Gate(f.useNumbers, 10) + Gate(f.useQuestions, 7)
    ensures forall m :: m in v <==>
              || (f.useLetters && m in Letters())
              || (f.useNumbers && m in Digits())
              || (f.useQuestions && m in QuestionWords)
    ensures f.useLetters ==> v[..26] == Letters()
    ensures f.useNumbers ==> v[Gate(f.useLetters, 26)..Gate(f.useLetters, 26) + 10] == Digits()
    ensures f.useQuestions ==> v[|v| - 7..] == QuestionWords
    ensures !f.useLetters && !f.useNumbers && !f.useQuestions ==> v == []
  {
    (if f.useLetters then Letters() else [])
      + (if f.useNumbers then Digits() else [])
      + (if f.useQuestions then QuestionWords else [])
  }

  /** The one-character modifiers are told apart by their character code. */
  lemma LettersAndDigitsAreCodes()
    ensures forall i :: 0 <= i < |Letters()| ==> |Letters()[i]| == 1 && Letters()[i][0] as int == 'a' as int + i
    ensures forall i :: 0 <= i < |Digits()| ==> |Digits()[i]| == 1 && Digits()[i][0] as int == '0' as int + i
  {
  }

  /** The computed categories spell out the source's literal lists. */
  lemma CategoriesSpelledOut()
    ensures Letters() == ["a", "b", "c", "d", "e", "f", "g", "h", "i", "j", "k", "l", "m",
                          "n", "o", "p", "q", "r", "s", "t", "u", "v", "w", "x", "y", "z"]
    ensures Digits() == ["0", "1", "2", "3", "4", "5", "6", "7", "8", "9"]
  {
  }

  /** Every modifier is a non-empty word of at most five characters, so none
      equals the bare-seed key `""` or the six-character row label `"(nėra)"`. */
  lemma ModifierLengths(f: Flags)
    ensures forall m :: m in Build(f) ==> 1 <= |m| <= 5
  {
    LettersAndDigitsAreCodes();
  }

  /** No modifier occurs twice, so each one gets exactly one fetch and one
      group of rows. */
  lemma BuildDistinct(f: Flags)
    ensures Distinct(Build(f))
  {
    LettersAndDigitsAreCodes();
    var l := if f.useLetters then Letters() else [];
    var d := if f.useNumbers then Digits() else [];
    var q := if f.useQuestions then QuestionWords else [];
    assert Distinct(QuestionWords);
    DistinctConcat(l, d);
    DistinctConcat(l + d, q);
  }

  /** What the rest of the sweep relies on: no duplicates, and neither the
      bare-seed key `""` nor the row label `"(nėra)"` among the modifiers. */
  lemma BuildWellFormed(f: Flags)
    ensures Distinct(Build(f))
    ensures "" !in Build(f)
    ensures "(nėra)" !in Build(f)
  {
    BuildDistinct(f);
    ModifierLengths(f);
  }

  lemma DistinctConcat(a: seq<string>, b: seq<string>)
    requires Distinct(a) && Distinct(b)
    requires forall i, j :: 0 <= i < |a| && 0 <= j < |b| ==> a[i] != b[j]
    ensures Distinct(a + b)
  {
  }
}
