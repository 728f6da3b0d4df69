/** Character classes and case mapping shared by the text normaliser, the
    grammar scorer and the upload check.

    Python's `str.lower` and the `\s` and `\w` classes of its `re` module are
    defined by the Unicode character database. Case mapping is modelled exactly
    for the code points U+0000 to U+00FF (ASCII and Latin-1) and as the
    identity above them; whitespace is modelled exactly; the word class is a
    parameter of the normaliser, with `Latin1WordChar` as an instance that is
    exact up to U+00FF. */
module Text {

  /** Upper-case letters of U+0000..U+00FF that `str.lower` changes. */
  predicate IsUpper(c: char) {
    'A' <= c <= 'Z' || ('\U{C0}' <= c <= '\U{DE}' && c != '\U{D7}')
  }

  /** Lower-case letters of U+0000..U+00FF that upper-case letters map to. */
  predicate IsLowerLetter(c: char) {
    'a' <= c <= 'z' || ('\U{E0}' <= c <= '\U{FE}' && c != '\U{F7}')
  }

  /** `str.lower` on one character (Latin-1 upper-case letters are 32 below
      their lower-case forms, as in ASCII). */
  function LowerChar(c: char): (r: char)
    ensures !IsUpper(r)
    ensures r == c <==> !IsUpper(c)
    ensures IsUpper(c) ==> IsLowerLetter(r)
  {
    if IsUpper(c) then (c as int + 32) as char else c
  }

  /** `str.lower` on a string: a character-by-character map. */
  function Lower(s: string): (r: string)
    ensures |r| == |s|
    ensures forall i :: 0 <= i < |s| ==> r[i] == LowerChar(s[i])
  {
    seq(|s|, i requires 0 <= i < |s| => LowerChar(s[i]))
  }

  /** A string with no upper-case letter is its own lower-case form, in
      particular a string that is already lower-cased. */
  lemma LowerFixed(s: string)
    requires forall i :: 0 <= i < |s| ==> !IsUpper(s[i])
    ensures Lower(s) == s
  {
    assert forall i :: 0 <= i < |s| ==> Lower(s)[i] == s[i];
  }

  lemma LowerIdempotent(s: string)
    ensures Lower(Lower(s)) == Lower(s)
  {
    LowerFixed(Lower(s));
  }

  /** Lower-casing distributes over concatenation. */
  lemma LowerAppend(s: string, t: string)
    ensures Lower(s + t) == Lower(s) + Lower(t)
  {
    assert forall i :: 0 <= i < |s + t| ==> Lower(s + t)[i] == (Lower(s) + Lower(t))[i];
  }

  /** The whitespace class `\s` of Python's `re` on `str` patterns, which is
      the set of characters for which `str.isspace` holds. */
  predicate IsSpace(c: char) {
    ('\t' <= c <= '\r') || ('\U{1C}' <= c <= '\U{1F}') || c == ' ' || c == '\U{85}' || c == '\U{A0}'
    || c == '\U{1680}' || ('\U{2000}' <= c <= '\U{200A}') || c == '\U{2028}' || c == '\U{2029}'
    || c == '\U{202F}' || c == '\U{205F}' || c == '\U{3000}'
  }

  /** The word class `\w` restricted to U+0000..U+00FF: letters, digits and
      numerals (`str.isalnum`) and the underscore. Code points above U+00FF
      are not classified by this instance. */
  predicate Latin1WordChar(c: char) {
    ('a' <= c <= 'z') || ('A' <= c <= 'Z') || ('0' <= c <= '9') || c == '_'
    || c == '\U{AA}' || c == '\U{B2}' || c == '\U{B3}' || c == '\U{B5}' || c == '\U{B9}' || c == '\U{BA}'
    || ('\U{BC}' <= c <= '\U{BE}') || ('\U{C0}' <= c <= '\U{D6}') || ('\U{D8}' <= c <= '\U{F6}')
    || ('\U{F8}' <= c <= '\U{FF}')
  }
}
