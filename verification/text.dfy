/**
 Character classes and the case folding the passport handlers rely on.
 Only ASCII is modelled: `\d` is taken to mean 0-9 and `str.upper` to map a-z
 to A-Z, which covers every captcha text and SMS code the handlers produce.
 */
module Text {

  predicate IsDigit(c: char) { '0' <= c <= '9' }

  predicate IsLower(c: char) { 'a' <= c <= 'z' }

  predicate IsUpper(c: char) { 'A' <= c <= 'Z' }

  predicate IsLetter(c: char) { IsLower(c) || IsUpper(c) }

  /** `str.upper` on one character. */
  function UpperChar(c: char): char
  {
    if IsLower(c) then (c as int - 32) as char else c
  }

  /** `str.upper` on a string: every character upper-cased, nothing added or dropped. */
  function Upper(s: string): (u: string)
    ensures |u| == |s|
    ensures forall i :: 0 <= i < |s| ==> u[i] == UpperChar(s[i])
    ensures forall i :: 0 <= i < |u| ==> !IsLower(u[i])
  {
    if s == [] then [] else [UpperChar(s[0])] + Upper(s[1..])
  }

  /**
   Two characters are the same letter up to case: equal, or both ASCII letters
   32 code points apart (the distance between a lower-case letter and its
   upper-case form).
   */
  predicate SameLetter(c: char, d: char)
  {
    c == d || (IsLetter(c) && IsLetter(d) && (c as int - d as int == 32 || d as int - c as int == 32))
  }

  /** Strings that differ at most in the case of their letters. */
  predicate SameIgnoringCase(a: string, b: string)
  {
    |a| == |b| && forall i :: 0 <= i < |a| ==> SameLetter(a[i], b[i])
  }

  lemma UpperCharSame(c: char, d: char)
    ensures UpperChar(c) == UpperChar(d) <==> SameLetter(c, d)
  {
  }

  /**
   Comparing upper-cased forms, as the SMS handler does, is exactly
   comparison up to letter case: both directions hold.
   */
  lemma UpperEqualIff(a: string, b: string)
    ensures Upper(a) == Upper(b) <==> SameIgnoringCase(a, b)
  {
    if Upper(a) == Upper(b) {
      forall i | 0 <= i < |a|
        ensures SameLetter(a[i], b[i])
      {
        assert Upper(a)[i] == Upper(b)[i];
        UpperCharSame(a[i], b[i]);
      }
    }
    if SameIgnoringCase(a, b) {
      forall i | 0 <= i < |a|
        ensures Upper(a)[i] == Upper(b)[i]
      {
        UpperCharSame(a[i], b[i]);
      }
    }
  }

  /** Comparison up to case is an equivalence relation. */
  lemma SameIgnoringCaseIsEquivalence(a: string, b: string, c: string)
    ensures SameIgnoringCase(a, a)
    ensures SameIgnoringCase(a, b) ==> SameIgnoringCase(b, a)
    ensures SameIgnoringCase(a, b) && SameIgnoringCase(b, c) ==> SameIgnoringCase(a, c)
  {
    UpperEqualIff(a, a);
    UpperEqualIff(a, b);
    UpperEqualIff(b, a);
    UpperEqualIff(b, c);
    UpperEqualIff(a, c);
  }

  /** Strings without letters are compared exactly even when case is ignored. */
  lemma DigitsIgnoringCaseAreEqual(a: string, b: string)
    requires forall i :: 0 <= i < |a| ==> IsDigit(a[i])
    ensures SameIgnoringCase(a, b) <==> a == b
  {
    if SameIgnoringCase(a, b) {
      assert forall i :: 0 <= i < |a| ==> a[i] == b[i];
    }
  }
}
