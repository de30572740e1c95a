/** Character classes and case mapping used by the code extractor,
    restricted to ASCII: every other character is a non-word character that
    upper-casing leaves unchanged. */
module Ascii {

  predicate IsLower(c: char) { 'a' <= c <= 'z' }

  predicate IsUpper(c: char) { 'A' <= c <= 'Z' }

  predicate IsDigit(c: char) { '0' <= c <= '9' }

  /** The characters `\w` matches: letters, digits and the underscore. */
  predicate IsWordChar(c: char) { IsLower(c) || IsUpper(c) || IsDigit(c) || c == '_' }

  /** The characters of the class `[A-Z0-9]`. */
  predicate IsCodeChar(c: char) { IsUpper(c) || IsDigit(c) }

  /** `str.upper` on one character. */
  function UpperChar(c: char): (u: char)
    ensures !IsLower(u)
    ensures IsWordChar(u) <==> IsWordChar(c)
    ensures !IsLower(c) ==> u == c
    ensures IsLower(c) ==> IsUpper(u) && u as int - c as int == 'A' as int - 'a' as int
  {
    if IsLower(c) then (c as int - 'a' as int + 'A' as int) as char else c
  }

  /** `str.upper` on a whole string: lower-case letters become upper-case,
      every other character stays where it is. */
  function Upper(s: string): (u: string)
    ensures |u| == |s|
    ensures forall k :: 0 <= k < |s| ==> u[k] == UpperChar(s[k])
  {
    seq(|s|, k requires 0 <= k < |s| => UpperChar(s[k]))
  }

  lemma {:induction false} UpperIdempotent(s: string)
    ensures Upper(Upper(s)) == Upper(s)
  {
    var u := Upper(s);
    assert forall k :: 0 <= k < |u| ==> Upper(u)[k] == u[k];
  }
}
