/** Plain substring facts over strings (sequences of characters). */
module Strings {

  /** `w` occurs in `s` starting at position `i`. */
  predicate OccursAt(s: string, w: string, i: nat) {
    i + |w| <= |s| && s[i..i + |w|] == w
  }

  /** `w` occurs somewhere in `s`. */
  ghost predicate Contains(s: string, w: string) {
    exists i: nat :: OccursAt(s, w, i)
  }

  /** An occurrence of `w + x` is an occurrence of `w` at the same place. */
  lemma OccursAtPrefix(s: string, w: string, x: string, i: nat)
    requires OccursAt(s, w + x, i)
    ensures OccursAt(s, w, i)
  {
    assert s[i..i + |w|] == s[i..i + |w + x|][..|w|];
    assert (w + x)[..|w|] == w;
  }

  /** An occurrence of `w` is made of its characters, in order. */
  lemma OccursAtChar(s: string, w: string, i: nat, k: nat)
    requires OccursAt(s, w, i)
    requires k < |w|
    ensures i + k < |s| && s[i + k] == w[k]
  {
    assert s[i..i + |w|][k] == w[k];
  }

  /** A word whose first character never appears in `s` does not occur in `s`. */
  lemma AbsentFirstCharacter(s: string, w: string)
    requires |w| > 0
    requires forall j :: 0 <= j < |s| ==> s[j] != w[0]
    ensures !Contains(s, w)
  {
    if i: nat :| OccursAt(s, w, i) {
      OccursAtChar(s, w, i, 0);
    }
  }

}
