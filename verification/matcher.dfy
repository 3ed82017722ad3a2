/** The match rule of `findLinks`: a file references a target when its text
    holds the target immediately followed by a quote or a source extension.
    The target is taken literally (no pattern metacharacters). */
module Matcher {
  import opened Wrappers
  import opened Strings

  /** The alternatives of the reference pattern, in the order the pattern
      lists them: a single quote, a double quote, `.js`, `.jsx`, `.ts`, `.tsx`. */
  const Suffixes: seq<string> := ["'", "\"", ".js", ".jsx", ".ts", ".tsx"]

  /** The alternatives left once those implied by a shorter one are dropped. */
  const CoreSuffixes: seq<string> := ["'", "\"", ".js", ".ts"]

  /** One of the pattern's alternatives starts at position `j` of `content`. */
  predicate SuffixAt(content: string, j: nat) {
    exists k | 0 <= k < |Suffixes| :: OccursAt(content, Suffixes[k], j)
  }

  /** The target occurs at `i` and an alternative follows it directly. */
  predicate ReferenceAt(content: string, target: string, i: nat) {
    OccursAt(content, target, i) && SuffixAt(content, i + |target|)
  }

  /** The per-file match rule: some occurrence of the target is followed by
      a quote or a source extension. */
  ghost predicate References(content: string, target: string) {
    exists i: nat :: ReferenceAt(content, target, i)
  }

  /** Every alternative starts with a quote or a dot. */
  predicate SuffixStart(c: char) {
    c == '\'' || c == '"' || c == '.'
  }

  /** The alternative the pattern tries first among those at position `j`,
      searching from alternative `k` on. */
  function FirstAlternativeFrom(content: string, j: nat, k: nat): (r: Option<nat>)
    requires k <= |Suffixes|
    decreases |Suffixes| - k
    ensures r.Some? ==> k <= r.value < |Suffixes| && OccursAt(content, Suffixes[r.value], j)
    ensures r.Some? ==> forall m :: k <= m < r.value ==> !OccursAt(content, Suffixes[m], j)
    ensures r.None? ==> forall m :: k <= m < |Suffixes| ==> !OccursAt(content, Suffixes[m], j)
  {
    if k == |Suffixes| then None
    else if OccursAt(content, Suffixes[k], j) then Some(k)
    else FirstAlternativeFrom(content, j, k + 1)
  }

  /** The alternative a left-to-right pattern match selects at position `j`. */
  function FirstAlternative(content: string, j: nat): (r: Option<nat>)
    ensures r.Some? <==> SuffixAt(content, j)
    ensures r.Some? ==> r.value < |Suffixes| && OccursAt(content, Suffixes[r.value], j)
  {
    FirstAlternativeFrom(content, j, 0)
  }

  /** Length of the alternative the pattern consumes at position `j`. */
  function MatchedSuffixLength(content: string, j: nat): (n: nat)
    requires SuffixAt(content, j)
    ensures j + n <= |content|
    ensures j < |content| && n == (if content[j] == '.' then 3 else 1)
  {
    var k := FirstAlternative(content, j).value;
    LongFormsNeverChosen(content, j);
    OccursAtChar(content, Suffixes[k], j, 0);
    |Suffixes[k]|
  }

  /** `.jsx` and `.tsx` are never the alternative selected: `.js` and `.ts`
      come first in the pattern and are prefixes of them. */
  lemma {:induction false} LongFormsNeverChosen(content: string, j: nat)
    requires SuffixAt(content, j)
    ensures FirstAlternative(content, j).value !in {3, 5}
  {
    var k := FirstAlternative(content, j).value;
    if k == 3 {
      assert Suffixes[3] == Suffixes[2] + "x";
      OccursAtPrefix(content, Suffixes[2], "x", j);
    } else if k == 5 {
      assert Suffixes[5] == Suffixes[4] + "x";
      OccursAtPrefix(content, Suffixes[4], "x", j);
    }
  }

  /** The `.jsx` and `.tsx` alternatives are redundant: the six alternatives
      accept exactly the positions the four core alternatives accept. */
  lemma {:induction false} CoreSuffixesSuffice(content: string, j: nat)
    ensures SuffixAt(content, j) <==>
            exists k | 0 <= k < |CoreSuffixes| :: OccursAt(content, CoreSuffixes[k], j)
  {
    if SuffixAt(content, j) {
      var k :| 0 <= k < |Suffixes| && OccursAt(content, Suffixes[k], j);
      if k == 3 {
        assert Suffixes[3] == CoreSuffixes[2] + "x";
        OccursAtPrefix(content, CoreSuffixes[2], "x", j);
      } else if k == 5 {
        assert Suffixes[5] == CoreSuffixes[3] + "x";
        OccursAtPrefix(content, CoreSuffixes[3], "x", j);
      } else {
        var m := if k < 3 then k else 3;
        assert CoreSuffixes[m] == Suffixes[k];
      }
    }
    if exists k | 0 <= k < |CoreSuffixes| :: OccursAt(content, CoreSuffixes[k], j) {
      var k :| 0 <= k < |CoreSuffixes| && OccursAt(content, CoreSuffixes[k], j);
      var m := if k < 3 then k else 4;
      assert Suffixes[m] == CoreSuffixes[k];
    }
  }

  /** An alternative can only start at a quote or a dot. */
  lemma {:induction false} SuffixNeedsStartCharacter(content: string, j: nat)
    requires SuffixAt(content, j)
    ensures j < |content| && SuffixStart(content[j])
  {
    var k :| 0 <= k < |Suffixes| && OccursAt(content, Suffixes[k], j);
    OccursAtChar(content, Suffixes[k], j, 0);
  }

  /** A content in which every occurrence of the target is followed by the
      end of the text or by a character other than a quote or a dot (for
      instance `utils` followed by a space) does not reference the target. */
  lemma {:induction false} UnfollowedOccurrencesDoNotReference(content: string, target: string)
    requires forall i: nat :: OccursAt(content, target, i) ==>
               i + |target| == |content| || !SuffixStart(content[i + |target|])
    ensures !References(content, target)
  {
    if i: nat :| ReferenceAt(content, target, i) {
      SuffixNeedsStartCharacter(content, i + |target|);
    }
  }

  /** A content that does not contain the target does not reference it. */
  lemma AbsentTargetDoesNotReference(content: string, target: string)
    requires !Contains(content, target)
    ensures !References(content, target)
  {
  }

  /** The leftmost position at or after `from` where the pattern matches. */
  function FirstMatch(content: string, target: string, from: nat): (r: Option<nat>)
    decreases |content| + 1 - from
    ensures r.Some? ==> from <= r.value && ReferenceAt(content, target, r.value)
    ensures r.Some? ==> forall q: nat :: from <= q < r.value ==> !ReferenceAt(content, target, q)
    ensures r.None? ==> forall q: nat :: from <= q ==> !ReferenceAt(content, target, q)
  {
    if from > |content| then None
    else if ReferenceAt(content, target, from) then Some(from)
    else FirstMatch(content, target, from + 1)
  }

  /** The per-file test: a fresh search of the whole content. */
  function ContainsReference(content: string, target: string): (found: bool)
    ensures found <==> References(content, target)
  {
    FirstMatch(content, target, 0).Some?
  }

}
