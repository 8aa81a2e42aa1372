/** String helpers: ASCII lower-casing and substring search. */
module Strings {

  function LowerChar(c: char): char {
    if 'A' <= c <= 'Z' then (c as int + 32) as char else c
  }

  /** `to_lowercase`, restricted to the ASCII letters. */
  function ToLower(s: string): (r: string)
    ensures |r| == |s|
    ensures forall i :: 0 <= i < |s| ==> r[i] == LowerChar(s[i])
  {
    seq(|s|, i requires 0 <= i < |s| => LowerChar(s[i]))
  }

  /** `sub` occurs in `s` at position `i`. */
  predicate OccursAt(s: string, sub: string, i: nat) {
    i + |sub| <= |s| && s[i..i + |sub|] == sub
  }

  /** `str::contains` for a string pattern. */
  predicate Contains(s: string, sub: string) {
    exists i: nat :: i <= |s| && OccursAt(s, sub, i)
  }

  /** Lower-casing commutes with taking a slice. */
  lemma ToLowerSlice(s: string, i: nat, j: nat)
    requires i <= j <= |s|
    ensures ToLower(s)[i..j] == ToLower(s[i..j])
  {
  }

  /** The window of `s` at position `i` as long as `sub` lower-cases to `sub`. */
  predicate LowersTo(s: string, sub: string, i: nat) {
    i + |sub| <= |s| && ToLower(s[i..i + |sub|]) == sub
  }

  /**
   A pattern occurs in the lower-cased text exactly when some window of the
   text itself lower-cases to the pattern.
   */
  lemma ContainsLowered(s: string, sub: string)
    ensures Contains(ToLower(s), sub) <==> exists i: nat :: LowersTo(s, sub, i)
  {
    forall i: nat | i + |sub| <= |s|
      ensures OccursAt(ToLower(s), sub, i) <==> LowersTo(s, sub, i)
    {
      ToLowerSlice(s, i, i + |sub|);
    }
  }

  /** Lower-casing twice is lower-casing once. */
  lemma ToLowerIdempotent(s: string)
    ensures ToLower(ToLower(s)) == ToLower(s)
  {
  }
}
