/** The two string methods the validator relies on, `str.isalpha()` and
    `str.upper()`, restricted to ASCII: the letters are A-Z and a-z, and
    upper-casing maps a-z to A-Z and leaves every other character alone. */
module Ascii {

  predicate IsUpper(c: char)
  {
    'A' <= c <= 'Z'
  }

  predicate IsLower(c: char)
  {
    'a' <= c <= 'z'
  }

  /** `c.isalpha()` for a one-character string. */
  predicate IsAlpha(c: char)
  {
    IsUpper(c) || IsLower(c)
  }

  /** `s.isalpha()`: true when `s` is non-empty and every character is a letter. */
  predicate IsAlphaString(s: string)
  {
    |s| > 0 && forall i :: 0 <= i < |s| ==> IsAlpha(s[i])
  }

  /** `c.upper()` for a one-character string. */
  function Upper(c: char): (u: char)
    ensures IsLower(c) ==> IsUpper(u) && u as int == c as int - 32
    ensures !IsLower(c) ==> u == c
    ensures IsAlpha(u) <==> IsAlpha(c)
    ensures !IsLower(u)
  {
    if IsLower(c) then (c as int - 32) as char else c
  }

  /** `c.lower()` for a one-character string. */
  function Lower(c: char): (l: char)
    ensures IsUpper(c) ==> IsLower(l) && l as int == c as int + 32
    ensures !IsUpper(c) ==> l == c
    ensures IsAlpha(l) <==> IsAlpha(c)
  {
    if IsUpper(c) then (c as int + 32) as char else c
  }

  /** `s.upper()`: character by character, same length. */
  function UpperString(s: string): (u: string)
    ensures |u| == |s|
    ensures forall i :: 0 <= i < |s| ==> u[i] == Upper(s[i])
  {
    seq(|s|, i requires 0 <= i < |s| => Upper(s[i]))
  }

  /** `s.lower()` */
  function LowerString(s: string): (l: string)
    ensures |l| == |s|
    ensures forall i :: 0 <= i < |s| ==> l[i] == Lower(s[i])
  {
    seq(|s|, i requires 0 <= i < |s| => Lower(s[i]))
  }

  /** Upper-casing twice is upper-casing once. */
  lemma UpperStringIdempotent(s: string)
    ensures UpperString(UpperString(s)) == UpperString(s)
  {
  }

  /** Upper-casing a lower-cased string gives the upper-cased original. */
  lemma UpperOfLower(s: string)
    ensures UpperString(LowerString(s)) == UpperString(s)
  {
    forall i | 0 <= i < |s| ensures Upper(Lower(s[i])) == Upper(s[i]) {
      var c := s[i];
      if IsUpper(c) {
        assert Upper(Lower(c)) as int == c as int;
      }
    }
  }

  /** Neither case change alters whether a string is alphabetic. */
  lemma CaseKeepsAlphabetic(s: string)
    ensures IsAlphaString(UpperString(s)) <==> IsAlphaString(s)
    ensures IsAlphaString(LowerString(s)) <==> IsAlphaString(s)
  {
    if IsAlphaString(UpperString(s)) {
      assert forall i :: 0 <= i < |s| ==> IsAlpha(UpperString(s)[i]);
    }
    if IsAlphaString(LowerString(s)) {
      assert forall i :: 0 <= i < |s| ==> IsAlpha(LowerString(s)[i]);
    }
  }
}
