/** Character-level helpers: `str.lower()` restricted to ASCII letters. */
module Text {

  function LowerChar(c: char): (r: char)
    ensures 'A' <= c <= 'Z' ==> r as int == c as int + 32
    ensures !('A' <= c <= 'Z') ==> r == c
  {
    if 'A' <= c <= 'Z' then (c as int + 32) as char else c
  }

  /** `s.lower()` for ASCII text. */
  function Lower(s: string): (r: string)
    ensures |r| == |s|
    ensures forall i :: 0 <= i < |s| ==> r[i] == LowerChar(s[i])
  {
    if s == [] then [] else [LowerChar(s[0])] + Lower(s[1..])
  }

  predicate IsLowercase(s: string) {
    forall i :: 0 <= i < |s| ==> !('A' <= s[i] <= 'Z')
  }

  lemma {:induction false} LowerIsLowercase(s: string)
    ensures IsLowercase(Lower(s))
  {
    forall i | 0 <= i < |s| ensures !('A' <= Lower(s)[i] <= 'Z') {
      assert Lower(s)[i] == LowerChar(s[i]);
    }
  }

  /** Lowering text that has no upper-case letter gives it back unchanged. */
  lemma {:induction false} LowerOfLowercase(s: string)
    requires IsLowercase(s)
    ensures Lower(s) == s
  {
    if s != [] {
      LowerOfLowercase(s[1..]);
    }
  }

  /** `t` is the lower-cased `s`, checked character by character. */
  lemma LowerSpells(s: string, t: string)
    requires |s| == |t| && forall i :: 0 <= i < |s| ==> LowerChar(s[i]) == t[i]
    ensures Lower(s) == t
  {
  }

  /** `s.lower().lower() == s.lower()` */
  lemma LowerIdempotent(s: string)
    ensures Lower(Lower(s)) == Lower(s)
  {
    LowerIsLowercase(s);
    LowerOfLowercase(Lower(s));
  }
}
