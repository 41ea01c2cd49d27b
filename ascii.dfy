/**
 * The ASCII part of JavaScript's `toLowerCase` and of the regular-expression
 * class `\s`, which is all the menu labels and keyboard keys use.
 */
module Ascii {

  /** The ASCII members of `\s`: space, tab, line feed, vertical tab, form feed, carriage return. */
  predicate IsWhitespace(c: char) {
    c == ' ' || '\t' <= c <= '\r'
  }

  predicate IsUpper(c: char) {
    'A' <= c <= 'Z'
  }

  predicate NoWhitespace(s: string) {
    forall i :: 0 <= i < |s| ==> !IsWhitespace(s[i])
  }

  predicate NoUpper(s: string) {
    forall i :: 0 <= i < |s| ==> !IsUpper(s[i])
  }

  /** The tail of text without whitespace has none either. */
  lemma NoWhitespaceTail(s: string)
    requires s != [] && NoWhitespace(s)
    ensures NoWhitespace(s[1..])
  {
    forall i | 0 <= i < |s[1..]| ensures !IsWhitespace(s[1..][i]) {
      assert s[1..][i] == s[i + 1];
    }
  }

  /** Lower-cases one character; every character other than `A`..`Z` is left alone. */
  function ToLower(c: char): (r: char)
    ensures !IsUpper(r)
    ensures !IsUpper(c) ==> r == c
    ensures IsUpper(c) ==> 'a' <= r <= 'z' && r as int - c as int == 32
  {
    if IsUpper(c) then (c as int + 32) as char else c
  }

  /** `s.toLowerCase()` on ASCII text. */
  function LowerAll(s: string): (r: string)
    ensures |r| == |s|
    ensures forall i :: 0 <= i < |s| ==> r[i] == ToLower(s[i])
    ensures NoUpper(r)
  {
    if s == [] then [] else [ToLower(s[0])] + LowerAll(s[1..])
  }

  /** Lower-casing text with no upper-case letter changes nothing. */
  lemma {:induction false} LowerAllFixesLower(s: string)
    requires NoUpper(s)
    ensures LowerAll(s) == s
  {
    if s != [] {
      LowerAllFixesLower(s[1..]);
    }
  }

  /** Lower-casing twice is lower-casing once. */
  lemma LowerAllIdempotent(s: string)
    ensures LowerAll(LowerAll(s)) == LowerAll(s)
  {
    LowerAllFixesLower(LowerAll(s));
  }
}
