/** Upper-casing of strings, restricted to the ASCII letters. */
module Ascii {

  predicate IsLowerLetter(c: char) {
    'a' <= c <= 'z'
  }

  predicate IsUpperLetter(c: char) {
    'A' <= c <= 'Z'
  }

  /** The upper-case form of one character: `a`..`z` move to `A`..`Z`, all else stays. */
  function UpperChar(c: char): (u: char)
    ensures IsLowerLetter(c) ==> IsUpperLetter(u) && u as int == c as int - 32
    ensures !IsLowerLetter(c) ==> u == c
    ensures !IsLowerLetter(u)
  {
    if IsLowerLetter(c) then (c as int - 32) as char else c
  }

  /** `s.toUpperCase()` on ASCII text: the same length, every character upper-cased in place. */
  function Upper(s: string): (r: string)
    ensures |r| == |s|
    ensures forall i :: 0 <= i < |s| ==> r[i] == UpperChar(s[i])
  {
    if |s| == 0 then [] else [UpperChar(s[0])] + Upper(s[1..])
  }

  /** A string already in upper case: `Upper` leaves it as it is. */
  predicate IsUpper(s: string) {
    forall i :: 0 <= i < |s| ==> !IsLowerLetter(s[i])
  }

  lemma IsUpperIffFixed(s: string)
    ensures IsUpper(s) <==> Upper(s) == s
  {
    if IsUpper(s) {
      assert Upper(s) == s;
    } else {
      var i :| 0 <= i < |s| && IsLowerLetter(s[i]);
      assert Upper(s)[i] != s[i];
    }
  }

  /** The result of `Upper` is upper case, so upper-casing twice changes nothing. */
  lemma UpperIsUpper(s: string)
    ensures IsUpper(Upper(s))
    ensures Upper(Upper(s)) == Upper(s)
  {
    IsUpperIffFixed(Upper(s));
  }
}
