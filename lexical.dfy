/** `lexical_diversity`: the type/token ratio of the transcription as a
    percentage. NLTK's `word_tokenize` is outside this model, so the token
    list is an input. */
module Lexical {
  import opened Ratio

  type Token = string

  /** `set(words)`: the distinct tokens. */
  function Types(tokens: seq<Token>): set<Token> {
    set t | t in tokens
  }

  predicate NoDuplicates(tokens: seq<Token>) {
    forall i, j :: 0 <= i < j < |tokens| ==> tokens[i] != tokens[j]
  }

  /** There are at most as many distinct tokens as tokens, at least one for a
      non-empty list, and exactly as many when no token repeats. */
  lemma {:induction false} TypeCount(tokens: seq<Token>)
    ensures |Types(tokens)| <= |tokens|
    ensures |tokens| > 0 ==> |Types(tokens)| > 0
    ensures |Types(tokens)| == |tokens| <==> NoDuplicates(tokens)
  {
    if |tokens| > 0 {
      var rest := tokens[1..];
      TypeCount(rest);
      assert Types(tokens) == {tokens[0]} + Types(rest);
      assert tokens[0] in Types(tokens);
      if tokens[0] in rest {
        assert Types(tokens) == Types(rest);
        var k :| 0 <= k < |rest| && rest[k] == tokens[0];
        assert tokens[k + 1] == tokens[0];
      } else {
        assert tokens[0] !in Types(rest);
        assert NoDuplicates(tokens) <==> NoDuplicates(rest) by {
          if NoDuplicates(rest) {
            forall i, j | 0 <= i < j < |tokens| ensures tokens[i] != tokens[j] {
              if i > 0 {
                assert tokens[i] == rest[i - 1] && tokens[j] == rest[j - 1];
              } else {
                assert tokens[j] == rest[j - 1];
              }
            }
          }
          if NoDuplicates(tokens) {
            forall i, j | 0 <= i < j < |rest| ensures rest[i] != rest[j] {
              assert rest[i] == tokens[i + 1] && rest[j] == tokens[j + 1];
            }
          }
        }
      }
    }
  }

  /** The diversity score: 0.0 for no tokens; otherwise positive, at most
      100, and exactly 100 when every token is distinct. */
  function Diversity(tokens: seq<Token>): (score: real)
    ensures |tokens| == 0 ==> score == 0.0
    ensures |tokens| > 0 ==> 0.0 < score <= 100.0
    ensures score == 100.0 <==> |tokens| > 0 && NoDuplicates(tokens)
  {
    if |tokens| == 0 then 0.0
    else
      TypeCount(tokens);
      ShareBounds(|Types(tokens)|, |tokens|);
      (|Types(tokens)| as real / |tokens| as real) * 100.0
  }

  /** A word repeated three times has diversity one third. */
  lemma RepeatedWordExample()
    ensures Diversity(["a", "a", "a"]) == 100.0 / 3.0
  {
    assert Types(["a", "a", "a"]) == {"a"};
  }
}
