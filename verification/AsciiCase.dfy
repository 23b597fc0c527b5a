/** ASCII lowercasing of names. */
module AsciiCase {
  type Name = string

  function LowerChar(c: char): char {
    if 'A' <= c <= 'Z' then (c as int + 32) as char else c
  }

  function Lower(s: Name): (r: Name)
    ensures |r| == |s|
    ensures forall i :: 0 <= i < |s| ==> r[i] == LowerChar(s[i])
  {
    seq(|s|, i requires 0 <= i < |s| => LowerChar(s[i]))
  }

  /** The n-th capital letter becomes the n-th small one, and every other character stays. */
  lemma LowerLetters(c: char)
    ensures 'A' <= c <= 'Z' ==>
              'a' <= LowerChar(c) <= 'z' && LowerChar(c) as int - 'a' as int == c as int - 'A' as int
    ensures !('A' <= c <= 'Z') ==> LowerChar(c) == c
  {
  }

  predicate IsLower(s: Name) { Lower(s) == s }

  lemma LowerIsLower(s: Name)
    ensures IsLower(Lower(s))
  {
    assert forall i :: 0 <= i < |s| ==> Lower(Lower(s))[i] == Lower(s)[i];
  }
}
