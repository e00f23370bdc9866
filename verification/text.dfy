/** Substring search, standing for JavaScript's `String.prototype.includes`. */
module Text {

  /** `s` begins with `p`. */
  predicate StartsWith(s: string, p: string) {
    |p| <= |s| && s[..|p|] == p
  }

  /** Executable search: does `p` occur somewhere in `s`? Like `includes`,
      the empty pattern occurs in every string. */
  function Contains(s: string, p: string): bool
    decreases |s|
  {
    StartsWith(s, p) || (|s| > 0 && Contains(s[1..], p))
  }

  /** Reference definition: `p` occurs in `s` starting at index `i`. */
  ghost predicate OccursAt(s: string, p: string, i: int) {
    0 <= i && i + |p| <= |s| && s[i..i + |p|] == p
  }

  /** An occurrence in the tail of `s` is an occurrence in `s`, one index later. */
  lemma OccursInTail(s: string, p: string, i: int)
    requires |s| > 0 && 0 <= i
    ensures OccursAt(s[1..], p, i) <==> OccursAt(s, p, i + 1)
  {
  }

  /** The search finds `p` exactly when `p` occurs at some index of `s`. */
  lemma {:induction false} ContainsIff(s: string, p: string)
    ensures Contains(s, p) <==> exists i :: OccursAt(s, p, i)
    decreases |s|
  {
    assert StartsWith(s, p) <==> OccursAt(s, p, 0);
    if |s| > 0 {
      ContainsIff(s[1..], p);
      forall i | 0 <= i
        ensures OccursAt(s[1..], p, i) <==> OccursAt(s, p, i + 1)
      {
        OccursInTail(s, p, i);
      }
      if i :| OccursAt(s, p, i) {
        if i > 0 {
          assert OccursAt(s[1..], p, i - 1);
        }
      }
    }
  }
}
