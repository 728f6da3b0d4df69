/** The grammar scorer `get_grammar_errors_and_grammar_scores`: TextBlob's
    spelling correction is outside this model, so the word lists of the
    original and of the corrected text are inputs. A word counts as an error
    when it differs, ignoring case, from the corrected word AT THE SAME
    POSITION; the pairing is Python's `zip`, which stops at the shorter list,
    so a correction that drops or adds a word shifts every later pair. */
module Grammar {
  import opened Text
  import opened Ratio

  type Word = string

  /** `o.lower() != c.lower()` turned around. */
  predicate SameWord(o: Word, c: Word) {
    Lower(o) == Lower(c)
  }

  function MinLength(o: seq<Word>, c: seq<Word>): nat {
    if |o| < |c| then |o| else |c|
  }

  /** `sum(1 for o, c in zip(original, corrected) if o.lower() != c.lower())`:
      at most as many errors as pairs, and none exactly when every pair
      matches ignoring case. */
  function Mismatches(original: seq<Word>, corrected: seq<Word>): (n: nat)
    ensures n <= MinLength(original, corrected)
    ensures n == 0 <==> forall i :: 0 <= i < MinLength(original, corrected) ==> SameWord(original[i], corrected[i])
  {
    if |original| == 0 || |corrected| == 0 then 0
    else
      var rest := Mismatches(original[1..], corrected[1..]);
      assert forall i :: 1 <= i < MinLength(original, corrected) ==>
        original[1..][i - 1] == original[i] && corrected[1..][i - 1] == corrected[i];
      (if SameWord(original[0], corrected[0]) then 0 else 1) + rest
  }

  /** Words past the end of the shorter list are never looked at. */
  lemma {:induction false} MismatchesOnlyOnCommonPrefix(original: seq<Word>, corrected: seq<Word>)
    ensures Mismatches(original, corrected)
         == Mismatches(original[..MinLength(original, corrected)], corrected[..MinLength(original, corrected)])
  {
    if |original| > 0 && |corrected| > 0 {
      var m := MinLength(original, corrected);
      assert original[..m][1..] == original[1..][..m - 1];
      assert corrected[..m][1..] == corrected[1..][..m - 1];
      MismatchesOnlyOnCommonPrefix(original[1..], corrected[1..]);
    }
  }

  /** The count adds one for each zipped pair that differs ignoring case:
      extending both lists by one pair adds exactly that pair's mismatch. */
  lemma {:induction false} MismatchesAppend(original: seq<Word>, corrected: seq<Word>, o: Word, c: Word)
    requires |original| == |corrected|
    ensures Mismatches(original + [o], corrected + [c])
         == Mismatches(original, corrected) + (if SameWord(o, c) then 0 else 1)
  {
    if |original| > 0 {
      assert (original + [o])[1..] == original[1..] + [o];
      assert (corrected + [c])[1..] == corrected[1..] + [c];
      MismatchesAppend(original[1..], corrected[1..], o, c);
    } else {
      assert original + [o] == [o] && corrected + [c] == [c];
    }
  }

  datatype GrammarAssessment = GrammarAssessment(errors: nat, score: real)

  /** The pair (`grammar_errors`, `grammar_score`): the score is the
      percentage of original words not counted as errors, and 0.0 when the
      original text has no words. */
  function Assess(original: seq<Word>, corrected: seq<Word>): (g: GrammarAssessment)
    ensures g.errors <= MinLength(original, corrected)
    ensures |original| == 0 ==> g.errors == 0 && g.score == 0.0
    ensures |original| > 0 ==> 0.0 <= g.score <= 100.0
    ensures |original| > 0 ==> (g.score == 100.0 <==> g.errors == 0)
  {
    var totalWords := |original|;
    var errors := Mismatches(original, corrected);
    if totalWords == 0 then GrammarAssessment(errors, 0.0)
    else
      ShareBounds(totalWords - errors, totalWords);
      GrammarAssessment(errors, ((totalWords - errors) as real / totalWords as real) * 100.0)
  }

  /** When the correction changes no word (ignoring case), there are no
      errors, and a non-empty text scores 100. */
  lemma UnchangedTextScoresFull(original: seq<Word>, corrected: seq<Word>)
    requires |original| == |corrected|
    requires forall i :: 0 <= i < |original| ==> SameWord(original[i], corrected[i])
    ensures Assess(original, corrected).errors == 0
    ensures |original| > 0 ==> Assess(original, corrected).score == 100.0
  {
  }

  /** The positional pairing as written: one dropped word shifts the rest,
      so deleting the first of three words counts two errors, and a
      correction that drops the last word counts no error at all. */
  lemma PositionalPairingExamples()
    ensures Assess(["a", "b", "c"], ["b", "c"]).errors == 2
    ensures Assess(["a", "b"], ["a"]) == GrammarAssessment(0, 100.0)
  {
    assert !SameWord("a", "b") by { assert Lower("a")[0] == 'a' && Lower("b")[0] == 'b'; }
    assert !SameWord("b", "c") by { assert Lower("b")[0] == 'b' && Lower("c")[0] == 'c'; }
    assert ["a", "b", "c"][1..] == ["b", "c"] && ["b", "c"][1..] == ["c"];
    assert ["a", "b"][1..] == ["b"] && ["a"][1..] == [];
  }
}
