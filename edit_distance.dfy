/** Levenshtein distance between two sequences, as NLTK's `edit_distance`
    computes it with its default arguments: insertion, deletion and
    substitution each cost 1, and no transpositions. The library function
    itself is not part of this model; `Distance` is the textbook recurrence on
    prefixes and `Compute` the bottom-up table algorithm that fills the same
    table row by row. */
module EditDistance {

  function Min3(x: nat, y: nat, z: nat): (m: nat)
    ensures m <= x && m <= y && m <= z
    ensures m == x || m == y || m == z
  {
    if x <= y && x <= z then x else if y <= z then y else z
  }

  /** Cost of matching the last element of `a` against the last of `b`. */
  function SubstitutionCost<T(==)>(x: T, y: T): nat {
    if x == y then 0 else 1
  }

  /** The edit distance: the last element of `a` is deleted, the last element
      of `b` is inserted, or the two last elements are matched. */
  function Distance<T(==)>(a: seq<T>, b: seq<T>): nat
    decreases |a| + |b|
  {
    if |a| == 0 then |b|
    else if |b| == 0 then |a|
    else Min3(Distance(a[..|a| - 1], b) + 1,
              Distance(a, b[..|b| - 1]) + 1,
              Distance(a[..|a| - 1], b[..|b| - 1]) + SubstitutionCost(a[|a| - 1], b[|b| - 1]))
  }

  function Max(x: nat, y: nat): nat {
    if x < y then y else x
  }

  /** The distance never exceeds the longer length: substitute along the
      shorter sequence and insert or delete the rest. */
  lemma {:induction false} DistanceAtMostMax<T>(a: seq<T>, b: seq<T>)
    ensures Distance(a, b) <= Max(|a|, |b|)
    decreases |a| + |b|
  {
    if |a| > 0 && |b| > 0 {
      DistanceAtMostMax(a[..|a| - 1], b[..|b| - 1]);
    }
  }

  /** The distance is at least the difference of the lengths, since every
      edit changes the length by at most one. */
  lemma {:induction false} DistanceAtLeastLengthGap<T>(a: seq<T>, b: seq<T>)
    ensures Distance(a, b) >= |a| - |b| && Distance(a, b) >= |b| - |a|
    decreases |a| + |b|
  {
    if |a| > 0 && |b| > 0 {
      DistanceAtLeastLengthGap(a[..|a| - 1], b);
      DistanceAtLeastLengthGap(a, b[..|b| - 1]);
      DistanceAtLeastLengthGap(a[..|a| - 1], b[..|b| - 1]);
    }
  }

  /** The distance is zero exactly when the sequences are equal. */
  lemma {:induction false} DistanceZeroIffEqual<T>(a: seq<T>, b: seq<T>)
    ensures Distance(a, b) == 0 <==> a == b
    decreases |a| + |b|
  {
    if |a| > 0 && |b| > 0 {
      var a', b' := a[..|a| - 1], b[..|b| - 1];
      assert a == a' + [a[|a| - 1]] && b == b' + [b[|b| - 1]];
      DistanceZeroIffEqual(a', b');
      if a == b {
        assert a' == b';
      }
    }
  }

  /** The distance does not depend on the order of its arguments. */
  lemma {:induction false} DistanceSymmetric<T>(a: seq<T>, b: seq<T>)
    ensures Distance(a, b) == Distance(b, a)
    decreases |a| + |b|
  {
    if |a| > 0 && |b| > 0 {
      DistanceSymmetric(a[..|a| - 1], b);
      DistanceSymmetric(a, b[..|b| - 1]);
      DistanceSymmetric(a[..|a| - 1], b[..|b| - 1]);
    }
  }

  /** NLTK's table algorithm: row `i` holds the distances from `a[..i]` to
      every prefix of `b`; each entry is the minimum of a deletion, an
      insertion and a substitution step from entries already filled. */
  method Compute<T(==)>(a: seq<T>, b: seq<T>) returns (d: nat)
    ensures d == Distance(a, b)
  {
    var row: seq<nat> := seq(|b| + 1, j requires 0 <= j <= |b| => j);
    forall j | 0 <= j <= |b| ensures row[j] == Distance(a[..0], b[..j]) {
    }
    var i := 0;
    while i < |a|
      invariant 0 <= i <= |a|
      invariant |row| == |b| + 1
      invariant forall j :: 0 <= j <= |b| ==> row[j] == Distance(a[..i], b[..j])
    {
      var next: seq<nat> := [i + 1];
      assert a[..i + 1][..i] == a[..i];
      var j := 1;
      while j <= |b|
        invariant 1 <= j <= |b| + 1
        invariant |next| == j
        invariant forall k :: 0 <= k < j ==> next[k] == Distance(a[..i + 1], b[..k])
      {
        assert b[..j][..j - 1] == b[..j - 1];
        var cell := Min3(row[j] + 1, next[j - 1] + 1, row[j - 1] + SubstitutionCost(a[i], b[j - 1]));
        assert cell == Distance(a[..i + 1], b[..j]);
        next := next + [cell];
        j := j + 1;
      }
      row := next;
      i := i + 1;
    }
    assert a[..|a|] == a && b[..|b|] == b;
    d := row[|b|];
  }
}
