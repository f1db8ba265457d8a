/** Prefix and substring tests on strings, as `startsWith`/`startswith` and `includes`/`in` use them. */
module Text {

  predicate StartsWith(s: string, prefix: string) {
    |prefix| <= |s| && s[..|prefix|] == prefix
  }

  /** A string shares every character of a prefix it starts with. */
  lemma PrefixChars(s: string, prefix: string)
    requires StartsWith(s, prefix)
    ensures forall i | 0 <= i < |prefix| :: s[i] == prefix[i]
  {
    assert forall i | 0 <= i < |prefix| :: s[..|prefix|][i] == s[i];
  }

  /** `pat` occurs in `s` starting at position `i`. */
  predicate OccursAt(s: string, pat: string, i: int) {
    0 <= i && i + |pat| <= |s| && s[i..i + |pat|] == pat
  }

  predicate Contains(s: string, pat: string) {
    exists i | 0 <= i <= |s| - |pat| :: OccursAt(s, pat, i)
  }
}
