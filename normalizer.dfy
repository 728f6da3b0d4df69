/** The text normaliser of the assessment pipeline (`preprocess_text`):
    lower-case the text, then delete every character that is neither a word
    character nor whitespace (`re.sub(r'[^\w\s]', '', text)`).

    The word class `\w` comes from the Unicode character database, which this
    model does not contain; it is the parameter `isWordChar`. */
module Normalizer {
  import opened Text

  /** A character that the pattern `[^\w\s]` does not match. */
  predicate Kept(c: char, isWordChar: char -> bool) {
    isWordChar(c) || IsSpace(c)
  }

  /** Deletion of every character matched by `[^\w\s]`, keeping the rest in
      order. */
  function StripNonWord(s: string, isWordChar: char -> bool): (r: string)
    ensures |r| <= |s|
    ensures forall i :: 0 <= i < |r| ==> Kept(r[i], isWordChar)
  {
    if |s| == 0 then []
    else if Kept(s[0], isWordChar) then [s[0]] + StripNonWord(s[1..], isWordChar)
    else StripNonWord(s[1..], isWordChar)
  }

  /** A character survives exactly when it occurs in the input and is kept. */
  lemma {:induction false} StripMembers(s: string, isWordChar: char -> bool, c: char)
    ensures c in StripNonWord(s, isWordChar) <==> c in s && Kept(c, isWordChar)
  {
    if |s| > 0 {
      StripMembers(s[1..], isWordChar, c);
      assert c in s <==> c == s[0] || c in s[1..];
    }
  }

  /** A text with nothing to delete is left unchanged, and only such a text. */
  lemma {:induction false} StripUnchanged(s: string, isWordChar: char -> bool)
    ensures StripNonWord(s, isWordChar) == s <==> forall i :: 0 <= i < |s| ==> Kept(s[i], isWordChar)
  {
    if |s| > 0 {
      StripUnchanged(s[1..], isWordChar);
      if !Kept(s[0], isWordChar) {
        assert |StripNonWord(s, isWordChar)| < |s|;
      } else {
        assert forall i :: 1 <= i < |s| ==> s[1..][i - 1] == s[i];
      }
    }
  }

  /** `preprocess_text`: the characters that survive are exactly the
      lower-cased characters of the input that are word characters or
      whitespace; none of them is an upper-case letter. */
  function Preprocess(text: string, isWordChar: char -> bool): (r: string)
    ensures |r| <= |text|
    ensures forall i :: 0 <= i < |r| ==> !IsUpper(r[i]) && Kept(r[i], isWordChar)
  {
    var lowered := Lower(text);
    forall c | c in StripNonWord(lowered, isWordChar) ensures !IsUpper(c) {
      StripMembers(lowered, isWordChar, c);
      var j :| 0 <= j < |lowered| && lowered[j] == c;
    }
    StripNonWord(lowered, isWordChar)
  }

  /** A character occurs in the normalised text exactly when it is the
      lower-case form of some character of the input and is a word character
      or whitespace. */
  lemma PreprocessMembers(text: string, isWordChar: char -> bool, c: char)
    ensures c in Preprocess(text, isWordChar)
        <==> (exists i :: 0 <= i < |text| && LowerChar(text[i]) == c) && Kept(c, isWordChar)
  {
    StripMembers(Lower(text), isWordChar, c);
    if c in Lower(text) {
      var i :| 0 <= i < |text| && Lower(text)[i] == c;
    }
    if exists i :: 0 <= i < |text| && LowerChar(text[i]) == c {
      var i :| 0 <= i < |text| && LowerChar(text[i]) == c;
      assert Lower(text)[i] == c;
    }
  }

  /** Normalising twice gives the same text as normalising once. */
  lemma PreprocessIdempotent(text: string, isWordChar: char -> bool)
    ensures Preprocess(Preprocess(text, isWordChar), isWordChar) == Preprocess(text, isWordChar)
  {
    var r := Preprocess(text, isWordChar);
    LowerFixed(r);
    StripUnchanged(r, isWordChar);
  }

  /** Normalisation works character by character, so it distributes over
      concatenation. */
  lemma {:induction false} StripAppend(s: string, t: string, isWordChar: char -> bool)
    ensures StripNonWord(s + t, isWordChar) == StripNonWord(s, isWordChar) + StripNonWord(t, isWordChar)
  {
    if |s| > 0 {
      assert (s + t)[1..] == s[1..] + t;
      StripAppend(s[1..], t, isWordChar);
    } else {
      assert s + t == t;
    }
  }

  lemma PreprocessAppend(s: string, t: string, isWordChar: char -> bool)
    ensures Preprocess(s + t, isWordChar) == Preprocess(s, isWordChar) + Preprocess(t, isWordChar)
  {
    LowerAppend(s, t);
    StripAppend(Lower(s), Lower(t), isWordChar);
  }

  /** Punctuation is removed while letters are lower-cased and spaces kept. */
  lemma PreprocessExample()
    ensures Preprocess("Ok, Go!", Latin1WordChar) == "ok go"
  {
    var t := "ok, go!";
    LowerExample();
    assert t[6..] == "!" && t[5..][1..] == t[6..] && t[4..][1..] == t[5..];
    assert t[3..][1..] == t[4..] && t[2..][1..] == t[3..] && t[1..][1..] == t[2..];
    assert StripNonWord(t[6..], Latin1WordChar) == "";
    assert StripNonWord(t[5..], Latin1WordChar) == "o";
    assert StripNonWord(t[4..], Latin1WordChar) == "go";
    assert StripNonWord(t[3..], Latin1WordChar) == " go";
    assert StripNonWord(t[2..], Latin1WordChar) == " go";
    assert StripNonWord(t[1..], Latin1WordChar) == "k go";
  }

  lemma LowerExample()
    ensures Lower("Ok, Go!") == "ok, go!"
  {
    var s := "Ok, Go!";
    assert LowerChar('O') == 'o' && LowerChar('G') == 'g';
    assert forall i :: 0 <= i < |s| ==> Lower(s)[i] == "ok, go!"[i];
  }

  /** The normalised text is empty exactly when no character of the input,
      lower-cased, is a word or whitespace character: a text of punctuation
      only comes out empty, and any letter, digit or space survives. */
  lemma PreprocessEmpty(text: string, isWordChar: char -> bool)
    ensures Preprocess(text, isWordChar) == ""
        <==> forall i :: 0 <= i < |text| ==> !Kept(LowerChar(text[i]), isWordChar)
  {
    var r := Preprocess(text, isWordChar);
    if r != "" {
      PreprocessMembers(text, isWordChar, r[0]);
      var i :| 0 <= i < |text| && LowerChar(text[i]) == r[0];
      assert Kept(LowerChar(text[i]), isWordChar);
    }
    if exists i :: 0 <= i < |text| && Kept(LowerChar(text[i]), isWordChar) {
      var i :| 0 <= i < |text| && Kept(LowerChar(text[i]), isWordChar);
      PreprocessMembers(text, isWordChar, LowerChar(text[i]));
      assert LowerChar(text[i]) in r;
    }
  }

  /** Whitespace is never deleted: no whitespace character is upper-case,
      so every one in the input occurs in the normalised text. */
  lemma WhitespaceKept(text: string, isWordChar: char -> bool, i: nat)
    requires i < |text| && IsSpace(text[i])
    ensures text[i] in Preprocess(text, isWordChar)
  {
    assert LowerChar(text[i]) == text[i];
    PreprocessMembers(text, isWordChar, text[i]);
  }

  /** `?!` normalises to the empty string. */
  lemma PunctuationOnlyExample()
    ensures Preprocess("?!", Latin1WordChar) == ""
  {
    var p := "?!";
    assert forall i :: 0 <= i < |p| ==> !Kept(LowerChar(p[i]), Latin1WordChar);
    PreprocessEmpty(p, Latin1WordChar);
  }
}
