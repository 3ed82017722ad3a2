/** The scan exactly as the source writes it: one pattern object with the
    global flag is built per call and its `test` is applied to every file in
    turn, so the position where the last successful match ended (its
    `lastIndex`) becomes the starting point of the search in the next file. */
module GlobalRegex {
  import opened Wrappers
  import opened Strings
  import opened Matcher
  import opened Links

  /** What one `test` call answers, and the `lastIndex` it leaves behind. */
  datatype TestOutcome = TestOutcome(matched: bool, lastIndex: nat)

  /** `test` on a global pattern: a start beyond the end fails, otherwise the
      leftmost match at or after `lastIndex` is sought; success moves
      `lastIndex` to the end of the match, failure resets it to 0. */
  function GlobalTest(content: string, target: string, lastIndex: nat): (r: TestOutcome)
    ensures r.matched <==> lastIndex <= |content| &&
                           exists q: nat :: lastIndex <= q && ReferenceAt(content, target, q)
    ensures r.matched ==> References(content, target) && lastIndex < r.lastIndex <= |content|
    ensures !r.matched ==> r.lastIndex == 0
    ensures lastIndex == 0 ==> (r.matched <==> References(content, target))
    ensures r.matched ==>
              exists q: nat :: lastIndex <= q && ReferenceAt(content, target, q)
                && (forall q': nat :: lastIndex <= q' < q ==> !ReferenceAt(content, target, q'))
                && q + |target| < |content|
                && r.lastIndex == q + |target| + (if content[q + |target|] == '.' then 3 else 1)
  {
    if lastIndex > |content| then TestOutcome(false, 0)
    else match FirstMatch(content, target, lastIndex)
      case None =>
        NoMatchFrom(content, target, lastIndex);
        TestOutcome(false, 0)
      case Some(p) =>
        var e := MatchEnd(content, target, p);
        assert lastIndex <= p && ReferenceAt(content, target, p);
        TestOutcome(true, e)
  }

  /** Where a match at `p` ends: after the target and the alternative the
      pattern consumes, 3 characters after a dot and 1 after a quote. */
  function MatchEnd(content: string, target: string, p: nat): (e: nat)
    requires ReferenceAt(content, target, p)
    ensures p + |target| < |content|
    ensures e == p + |target| + (if content[p + |target|] == '.' then 3 else 1)
    ensures p < e <= |content|
  {
    p + |target| + MatchedSuffixLength(content, p + |target|)
  }

  /** Without a match from `from` on, the content holds no reference when
      `from` is 0. */
  lemma NoMatchFrom(content: string, target: string, from: nat)
    requires FirstMatch(content, target, from).None?
    ensures !exists q: nat :: from <= q && ReferenceAt(content, target, q)
    ensures from == 0 ==> !References(content, target)
  {
  }

  /** One `test` call of the scan: from a file's content and the
      `lastIndex` in effect, the outcome. */
  type Tester = (string, nat) -> TestOutcome

  /** The `test` of the pattern built for `fileName`. */
  function TestFor(fileName: string): (test: Tester)
    ensures forall c, li :: test(c, li) == GlobalTest(c, fileName, li)
  {
    (c: string, li: nat) => GlobalTest(c, fileName, li)
  }

  /** What the loop of the scan holds after some files: the paths reported
      so far and the pattern's `lastIndex`. */
  datatype ScanState = ScanState(links: seq<string>, lastIndex: nat)

  /** The loop of the scan over `files`, with `lastIndex` threaded from each
      `test` call to the next, starting from `start`. */
  function Scan(cwd: string, files: Corpus, test: Tester, start: nat): (s: ScanState)
    decreases |files|
    ensures |s.links| <= |files|
  {
    if files == [] then ScanState([], start)
    else
      var before := Scan(cwd, files[..|files| - 1], test, start);
      var last := files[|files| - 1];
      var outcome := test(last.content, before.lastIndex);
      ScanState(if outcome.matched then before.links + [Join(cwd, last.path)] else before.links,
                outcome.lastIndex)
  }

  /** The `lastIndex` in effect when the scan tests file `i`. */
  function CarriedIndex(cwd: string, files: Corpus, test: Tester, start: nat, i: nat): nat
    requires i <= |files|
  {
    Scan(cwd, files[..i], test, start).lastIndex
  }

  /** Whether the scan reports file `i`: its `test` runs from the carried
      `lastIndex`. */
  predicate Hit(cwd: string, files: Corpus, test: Tester, start: nat, i: nat)
    requires i < |files|
  {
    test(files[i].content, CarriedIndex(cwd, files, test, start, i)).matched
  }

  /** The positions of the files the scan reports, in walk order. */
  function HitIndices(cwd: string, files: Corpus, test: Tester, start: nat): (idx: seq<nat>)
    decreases |files|
    ensures forall k :: 0 <= k < |idx| ==> idx[k] < |files|
    ensures forall a, b :: 0 <= a < b < |idx| ==> idx[a] < idx[b]
  {
    if files == [] then []
    else
      var n := |files| - 1;
      var earlier := HitIndices(cwd, files[..n], test, start);
      if Hit(cwd, files, test, start, n) then earlier + [n] else earlier
  }

  /** Whether an earlier file is reported does not depend on the files after
      it. */
  lemma HitIgnoresLaterFiles(cwd: string, files: Corpus, test: Tester, start: nat, n: nat, i: nat)
    requires i < n <= |files|
    ensures Hit(cwd, files[..n], test, start, i) <==> Hit(cwd, files, test, start, i)
  {
    assert files[..n][..i] == files[..i];
  }

  /** The scan reports file `i` exactly when its `test` from the carried
      `lastIndex` succeeds. */
  lemma {:induction false} HitIndicesExact(cwd: string, files: Corpus, test: Tester, start: nat)
    ensures var idx := HitIndices(cwd, files, test, start);
            forall i :: 0 <= i < |files| ==> (i in idx <==> Hit(cwd, files, test, start, i))
    decreases |files|
  {
    if files != [] {
      var n := |files| - 1;
      var idx := HitIndices(cwd, files, test, start);
      var earlier := HitIndices(cwd, files[..n], test, start);
      HitIndicesExact(cwd, files[..n], test, start);
      var hit := Hit(cwd, files, test, start, n);
      assert idx == if hit then earlier + [n] else earlier;
      assert n !in earlier;
      forall i | 0 <= i < |files|
        ensures i in idx <==> Hit(cwd, files, test, start, i)
      {
        if i < n {
          HitIgnoresLaterFiles(cwd, files, test, start, n, i);
          assert i in idx <==> i in earlier;
        } else {
          assert i == n;
          assert i in idx <==> hit;
        }
      }
    }
  }

  /** The k-th path the scan reports is the joined path of the k-th reported
      file, so the output follows walk order, one path per reported file. */
  lemma {:induction false} ScanFollowsHitIndices(cwd: string, files: Corpus, test: Tester, start: nat)
    ensures var links := Scan(cwd, files, test, start).links;
            var idx := HitIndices(cwd, files, test, start);
            |links| == |idx| &&
            forall k :: 0 <= k < |idx| ==> links[k] == Join(cwd, files[idx[k]].path)
    decreases |files|
  {
    if files != [] {
      var n := |files| - 1;
      ScanFollowsHitIndices(cwd, files[..n], test, start);
      assert files[..n][..n] == files[..n];
    }
  }

  /** The paths the scan as written reports. */
  function ScanAsWritten(cwd: string, files: Corpus, fileName: string, start: nat): (links: seq<string>)
    ensures |links| <= |files|
  {
    Scan(cwd, files, TestFor(fileName), start).links
  }

  /** In the scan as written, the carried `lastIndex` starts at `start` and
      is back at 0 after a file that was not reported. */
  lemma CarriedIndexResets(cwd: string, files: Corpus, fileName: string, start: nat, i: nat)
    requires i < |files|
    ensures CarriedIndex(cwd, files, TestFor(fileName), start, 0) == start
    ensures !Hit(cwd, files, TestFor(fileName), start, i) ==>
              CarriedIndex(cwd, files, TestFor(fileName), start, i + 1) == 0
  {
    assert files[..i + 1][..i] == files[..i];
  }

  /** Every file the scan as written reports references the target. */
  lemma AsWrittenHitsReference(cwd: string, files: Corpus, fileName: string, start: nat)
    ensures var idx := HitIndices(cwd, files, TestFor(fileName), start);
            forall k :: 0 <= k < |idx| ==> References(files[idx[k]].content, fileName)
  {
    var test := TestFor(fileName);
    var idx := HitIndices(cwd, files, test, start);
    HitIndicesExact(cwd, files, test, start);
    forall k | 0 <= k < |idx|
      ensures References(files[idx[k]].content, fileName)
    {
      assert idx[k] in idx;
      assert Hit(cwd, files, test, start, idx[k]);
    }
  }

  /** A file the scan as written tests from `lastIndex` 0 (the first file of
      a call, or any file right after an unreported one) is reported iff it
      references the target. */
  lemma FreshTestFollowsMatchRule(cwd: string, files: Corpus, fileName: string, start: nat, i: nat)
    requires i < |files|
    requires CarriedIndex(cwd, files, TestFor(fileName), start, i) == 0
    ensures i in HitIndices(cwd, files, TestFor(fileName), start) <==> References(files[i].content, fileName)
  {
    HitIndicesExact(cwd, files, TestFor(fileName), start);
  }

  /** Whatever the carried-over `lastIndex`, the scan as written only reports
      files whose content references the target. */
  lemma ScanAsWrittenIsSound(cwd: string, files: Corpus, fileName: string, start: nat, p: string)
    requires p in ScanAsWritten(cwd, files, fileName, start)
    ensures exists i :: 0 <= i < |files| && References(files[i].content, fileName)
                        && p == Join(cwd, files[i].path)
  {
    var links := ScanAsWritten(cwd, files, fileName, start);
    var idx := HitIndices(cwd, files, TestFor(fileName), start);
    ScanFollowsHitIndices(cwd, files, TestFor(fileName), start);
    AsWrittenHitsReference(cwd, files, fileName, start);
    var k :| 0 <= k < |links| && links[k] == p;
    assert References(files[idx[k]].content, fileName);
  }

  /** `findLinks` as written: the pattern starts with `lastIndex` 0 on each call. */
  function FindLinksAsWritten(cwd: string, corpus: Corpus, fileName: string): (links: seq<string>)
    ensures |links| <= |corpus|
    ensures forall p :: p in links ==> p in FindLinks(cwd, corpus, fileName)
  {
    var links := ScanAsWritten(cwd, corpus, fileName, 0);
    assert forall p :: p in links ==> p in FindLinks(cwd, corpus, fileName) by {
      forall p | p in links
        ensures p in FindLinks(cwd, corpus, fileName)
      {
        ScanAsWrittenIsSound(cwd, corpus, fileName, 0, p);
        FindLinksReportsExactly(cwd, corpus, fileName, p);
      }
    }
    links
  }

  /** `test` for `u` on `xu'` from 0 matches at 1 and consumes the quote,
      leaving `lastIndex` at 3. */
  lemma FirstExampleTest()
    ensures GlobalTest("xu'", "u", 0) == TestOutcome(true, 3)
  {
    var c := "xu'";
    assert OccursAt(c, "u", 1) && OccursAt(c, Suffixes[0], 2);
    assert ReferenceAt(c, "u", 1);
    assert c[0..1][0] == 'x';
    assert FirstMatch(c, "u", 0) == Some(1);
  }

  /** Over two files, the scan reports only the first when the first file's
      `test` from 0 succeeds and the second file's `test` from the
      `lastIndex` it leaves fails. */
  lemma ReportsFirstOnly(cwd: string, a: SourceFile, b: SourceFile, test: Tester)
    requires test(a.content, 0).matched
    requires !test(b.content, test(a.content, 0).lastIndex).matched
    ensures Scan(cwd, [a, b], test, 0).links == [Join(cwd, a.path)]
  {
    assert [a, b][..1] == [a];
    assert [a][..0] == [];
    assert Scan(cwd, [a], test, 0) == ScanState([Join(cwd, a.path)], test(a.content, 0).lastIndex);
  }

  /** The joined paths of the example's two files. */
  lemma ExamplePaths()
    ensures Join("/w", "a.ts") == "/w/a.ts" && Join("/w", "b.ts") == "/w/b.ts"
  {
    assert "/w" + "/" + "a.ts" == "/w/a.ts";
    assert "/w" + "/" + "b.ts" == "/w/b.ts";
  }

  /** The scan as written over `xu'` then `u'` reports only the first file.
      The files are parameters pinned by the precondition rather than
      literals in the statement: that keeps the verifier from unrolling the
      scan on literal arguments, which is what makes it slow. */
  lemma AsWrittenExampleScan(a: SourceFile, b: SourceFile)
    requires a == SourceFile("a.ts", "xu'") && b == SourceFile("b.ts", "u'")
    ensures FindLinksAsWritten("/w", [a, b], "u") == ["/w/a.ts"]
  {
    FirstExampleTest();
    assert GlobalTest(b.content, "u", 3) == TestOutcome(false, 0);
    var test := TestFor("u");
    assert test(a.content, 0) == TestOutcome(true, 3);
    assert test(b.content, 3) == TestOutcome(false, 0);
    ReportsFirstOnly("/w", a, b, test);
    ExamplePaths();
  }

  /** The per-file scan over two referencing files reports both, in order. */
  lemma PerFileReportsBoth(cwd: string, a: SourceFile, b: SourceFile, fileName: string)
    requires References(a.content, fileName) && References(b.content, fileName)
    ensures FindLinks(cwd, [a, b], fileName) == [Join(cwd, a.path), Join(cwd, b.path)]
  {
    FindLinksAppend(cwd, [], a, fileName);
    FindLinksAppend(cwd, [a], b, fileName);
    assert [] + [a] == [a] && [a] + [b] == [a, b];
  }

  /** The per-file scan over `xu'` then `u'` reports both files. The files
      are pinned parameters for the same reason as in `AsWrittenExampleScan`. */
  lemma PerFileExampleScan(a: SourceFile, b: SourceFile)
    requires a == SourceFile("a.ts", "xu'") && b == SourceFile("b.ts", "u'")
    ensures FindLinks("/w", [a, b], "u") == ["/w/a.ts", "/w/b.ts"]
  {
    assert ReferenceAt(a.content, "u", 1) by {
      assert OccursAt(a.content, "u", 1) && OccursAt(a.content, Suffixes[0], 2);
    }
    assert ReferenceAt(b.content, "u", 0) by {
      assert OccursAt(b.content, "u", 0) && OccursAt(b.content, Suffixes[0], 1);
    }
    PerFileReportsBoth("/w", a, b, "u");
    ExamplePaths();
  }

  /** The carried-over `lastIndex` loses a file: with target `u`, the first
      file `xu'` matches and leaves `lastIndex` at 3, so the search in the
      second file `u'` (two characters long) fails at once, although that
      file references `u` on its own. */
  lemma CarriedLastIndexMissesFile()
    ensures var corpus := [SourceFile("a.ts", "xu'"), SourceFile("b.ts", "u'")];
            FindLinksAsWritten("/w", corpus, "u") == ["/w/a.ts"] &&
            FindLinks("/w", corpus, "u") == ["/w/a.ts", "/w/b.ts"]
  {
    var a, b := SourceFile("a.ts", "xu'"), SourceFile("b.ts", "u'");
    AsWrittenExampleScan(a, b);
    PerFileExampleScan(a, b);
  }

}
