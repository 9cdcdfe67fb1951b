/**
 * The text operations the services rely on: lower-casing (ASCII letters
 * only; Unicode case folding is not modelled) and substring search, the
 * counterparts of Go's strings.ToLower and strings.Contains.
 */
module Strings {

  predicate IsUpper(c: char) { 'A' <= c <= 'Z' }

  function LowerChar(c: char): (l: char)
    ensures !IsUpper(l)
    ensures IsUpper(c) ==> l as int == c as int + 32
    ensures !IsUpper(c) ==> l == c
  {
    if IsUpper(c) then (c as int + 32) as char else c
  }

  /** strings.ToLower: every letter lowered, everything else kept in place. */
  function ToLower(s: string): (r: string)
    ensures |r| == |s|
    ensures forall i :: 0 <= i < |s| ==> r[i] == LowerChar(s[i])
  {
    if s == [] then [] else [LowerChar(s[0])] + ToLower(s[1..])
  }

  /** strings.Contains: sub occurs in s at some position. */
  predicate Contains(s: string, sub: string)
  {
    exists i :: 0 <= i <= |s| && sub <= s[i..]
  }

  /** Lower-cased text holds no upper-case letter. */
  lemma LowerHasNoUpper(s: string, i: int)
    requires 0 <= i < |s|
    ensures !IsUpper(ToLower(s)[i])
  {
  }

  /** A word holding an upper-case letter never occurs in lower-cased text. */
  lemma UpperNeverInLower(s: string, sub: string, k: int)
    requires 0 <= k < |sub| && IsUpper(sub[k])
    ensures !Contains(ToLower(s), sub)
  {
    var l := ToLower(s);
    forall j | 0 <= j < |l|
      ensures l[j] != sub[k]
    {
      LowerHasNoUpper(s, j);
    }
  }

  /** The empty string occurs in every string. */
  lemma ContainsEmpty(s: string)
    ensures Contains(s, "")
  {
    assert "" <= s[0..];
  }
}
