/** The phoneme comparison of the assessment pipeline: the phoneme list of a
    text (G2p's output without its word-separating spaces, `text_to_phonemes`)
    and the phoneme similarity `calculate_per`, which the report shows as both
    AccuracyScore and PronScore. */
module PhonemeScore {
  import opened EditDistance
  import opened Ratio

  type Phoneme = string

  /** `text_to_phonemes` after G2p: every `' '` entry is dropped, the other
      entries are kept in order. */
  function DropSpaces(raw: seq<Phoneme>): (r: seq<Phoneme>)
    ensures |r| <= |raw|
    ensures " " !in r
  {
    if |raw| == 0 then []
    else if raw[0] == " " then DropSpaces(raw[1..])
    else [raw[0]] + DropSpaces(raw[1..])
  }

  /** An entry survives exactly when it occurs in G2p's output and is not a
      space. */
  lemma {:induction false} DropSpacesMembers(raw: seq<Phoneme>, p: Phoneme)
    ensures p in DropSpaces(raw) <==> p in raw && p != " "
  {
    if |raw| > 0 {
      DropSpacesMembers(raw[1..], p);
      assert p in raw <==> p == raw[0] || p in raw[1..];
    }
  }

  /** Dropping spaces keeps the other entries in order and with their
      multiplicity: it distributes over concatenation ... */
  lemma {:induction false} DropSpacesAppend(x: seq<Phoneme>, y: seq<Phoneme>)
    ensures DropSpaces(x + y) == DropSpaces(x) + DropSpaces(y)
  {
    if |x| > 0 {
      assert (x + y)[1..] == x[1..] + y;
      DropSpacesAppend(x[1..], y);
    } else {
      assert x + y == y;
    }
  }

  /** ... and leaves a list without `' '` entries unchanged. */
  lemma {:induction false} DropSpacesUnchanged(raw: seq<Phoneme>)
    requires " " !in raw
    ensures DropSpaces(raw) == raw
  {
    if |raw| > 0 {
      assert " " !in raw[1..];
      DropSpacesUnchanged(raw[1..]);
    }
  }

  /** `calculate_per`: 100 times one minus the edit distance over the longer
      length, and 0.0 (not 100) when both phoneme lists are empty. The
      score lies in [0, 100], cannot exceed the share of the longer list
      that the shorter one covers, and is exactly 100 only for two equal
      non-empty lists. */
  function Similarity(transcribed: seq<Phoneme>, reference: seq<Phoneme>): (score: real)
    ensures Max(|transcribed|, |reference|) == 0 ==> score == 0.0
    ensures 0.0 <= score <= 100.0
    ensures Max(|transcribed|, |reference|) > 0 ==>
      score <= 100.0 * (|transcribed| + |reference| - Max(|transcribed|, |reference|)) as real
                     / Max(|transcribed|, |reference|) as real
    ensures score == 100.0 <==> transcribed == reference && |transcribed| > 0
  {
    var distance := Distance(transcribed, reference);
    var maxLength := Max(|transcribed|, |reference|);
    if maxLength == 0 then 0.0
    else
      DistanceAtMostMax(transcribed, reference);
      DistanceAtLeastLengthGap(transcribed, reference);
      DistanceZeroIffEqual(transcribed, reference);
      RatioBounds(distance, maxLength, |transcribed| + |reference| - maxLength);
      (1.0 - distance as real / maxLength as real) * 100.0
  }

  /** Arithmetic behind the bounds of `Similarity`: for `d <= m` and
      `d >= m - s`, `(1 - d/m) * 100` lies in [0, 100] and below `100 s / m`,
      and equals 100 only for d = 0. */
  lemma RatioBounds(d: nat, m: nat, s: int)
    requires 0 < m && d <= m && m - s <= d
    ensures 0.0 <= (1.0 - d as real / m as real) * 100.0 <= 100.0
    ensures (1.0 - d as real / m as real) * 100.0 <= 100.0 * s as real / m as real
    ensures (1.0 - d as real / m as real) * 100.0 == 100.0 <==> d == 0
  {
    var mr, dr, sr := m as real, d as real, s as real;
    var q := dr / mr;
    DivMonotone(dr, mr, mr);
    DivSelf(mr);
    DivMonotone(0.0, dr, mr);
    if d > 0 {
      DivPositive(dr, mr);
    }
    DivMonotone(mr - dr, sr, mr);
    assert 100.0 * sr / mr == 100.0 * (sr / mr);
  }

  /** The similarity is symmetric, like the edit distance and the maximum it
      is built from. */
  lemma SimilaritySymmetric(a: seq<Phoneme>, b: seq<Phoneme>)
    ensures Similarity(a, b) == Similarity(b, a)
  {
    DistanceSymmetric(a, b);
  }

  /** `calculate_per` as the pipeline runs it, with the edit distance
      computed by the table algorithm. */
  method CalculatePer(transcribed: seq<Phoneme>, reference: seq<Phoneme>) returns (score: real)
    ensures score == Similarity(transcribed, reference)
  {
    var distance := Compute(transcribed, reference);
    var maxLength := Max(|transcribed|, |reference|);
    if maxLength == 0 {
      score := 0.0;
    } else {
      score := (1.0 - distance as real / maxLength as real) * 100.0;
    }
  }
}
