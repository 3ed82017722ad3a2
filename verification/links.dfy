/** `findLinks`: the corpus scan that reports every file referencing a target.
    The file-system walk and the content reads are replaced by a corpus, a
    sequence of (relative path, content) pairs in walk order. */
module Links {
  import opened Matcher

  datatype SourceFile = SourceFile(path: string, content: string)

  /** The files of the working directory with a source extension, in walk order. */
  type Corpus = seq<SourceFile>

  /** The working directory joined with a relative path (no normalisation). */
  function Join(dir: string, rel: string): (p: string)
    ensures |p| == |dir| + 1 + |rel|
    ensures p[..|dir|] == dir && p[|dir|] == '/' && p[|dir| + 1..] == rel
  {
    dir + "/" + rel
  }

  /** The per-file match rule applied to one file of the corpus. */
  function Reports(file: SourceFile, fileName: string): (found: bool)
    ensures found <==> References(file.content, fileName)
  {
    ContainsReference(file.content, fileName)
  }

  /** The full paths of the referencing files, in walk order; each file is
      tested on its own (the corrected form of the scan, see GlobalRegex). */
  function FindLinks(cwd: string, corpus: Corpus, fileName: string): (links: seq<string>)
    decreases |corpus|
    ensures |links| <= |corpus|
  {
    if corpus == [] then []
    else
      var earlier := FindLinks(cwd, corpus[..|corpus| - 1], fileName);
      var last := corpus[|corpus| - 1];
      if Reports(last, fileName) then earlier + [Join(cwd, last.path)] else earlier
  }

  /** The positions in the corpus of the files that reference the target. */
  function MatchIndices(corpus: Corpus, fileName: string): (idx: seq<nat>)
    decreases |corpus|
    ensures forall k :: 0 <= k < |idx| ==>
              idx[k] < |corpus| && References(corpus[idx[k]].content, fileName)
    ensures forall a, b :: 0 <= a < b < |idx| ==> idx[a] < idx[b]
    ensures forall i :: 0 <= i < |corpus| && References(corpus[i].content, fileName) ==> i in idx
  {
    if corpus == [] then []
    else
      var n := |corpus| - 1;
      var earlier := MatchIndices(corpus[..n], fileName);
      var idx := if Reports(corpus[n], fileName) then earlier + [n] else earlier;
      MatchIndicesStep(corpus, fileName, earlier, idx);
      idx
  }

  /** One step of `MatchIndices`: the positions for all but the last file,
      with the last one added exactly when it references the target. */
  lemma MatchIndicesStep(corpus: Corpus, fileName: string, earlier: seq<nat>, idx: seq<nat>)
    requires |corpus| > 0
    requires forall k :: 0 <= k < |earlier| ==>
               earlier[k] < |corpus| - 1 && References(corpus[..|corpus| - 1][earlier[k]].content, fileName)
    requires forall a, b :: 0 <= a < b < |earlier| ==> earlier[a] < earlier[b]
    requires forall i :: 0 <= i < |corpus| - 1 && References(corpus[..|corpus| - 1][i].content, fileName) ==> i in earlier
    requires idx == if References(corpus[|corpus| - 1].content, fileName) then earlier + [|corpus| - 1] else earlier
    ensures forall k :: 0 <= k < |idx| ==>
              idx[k] < |corpus| && References(corpus[idx[k]].content, fileName)
    ensures forall a, b :: 0 <= a < b < |idx| ==> idx[a] < idx[b]
    ensures forall i :: 0 <= i < |corpus| && References(corpus[i].content, fileName) ==> i in idx
  {
    var n := |corpus| - 1;
    assert forall i :: 0 <= i < n ==> corpus[..n][i] == corpus[i];
    if References(corpus[n].content, fileName) {
      assert idx == earlier + [n];
    } else {
      assert idx == earlier;
    }
    forall k | 0 <= k < |idx|
      ensures idx[k] < |corpus| && References(corpus[idx[k]].content, fileName)
    {
      if k < |earlier| {
        assert idx[k] == earlier[k];
      }
    }
    forall i | 0 <= i < |corpus| && References(corpus[i].content, fileName)
      ensures i in idx
    {
      if i < n {
        assert i in earlier;
      }
    }
  }

  /** `findLinks` lists the referencing files exactly once each, in walk
      order: its k-th entry is the joined path of the k-th referencing file. */
  lemma {:induction false} FindLinksFollowsWalkOrder(cwd: string, corpus: Corpus, fileName: string)
    ensures var links := FindLinks(cwd, corpus, fileName);
            var idx := MatchIndices(corpus, fileName);
            |links| == |idx| &&
            forall k :: 0 <= k < |idx| ==> links[k] == Join(cwd, corpus[idx[k]].path)
    decreases |corpus|
  {
    if corpus != [] {
      var n := |corpus| - 1;
      FindLinksFollowsWalkOrder(cwd, corpus[..n], fileName);
      var links, idx := FindLinks(cwd, corpus, fileName), MatchIndices(corpus, fileName);
      var before, earlier := FindLinks(cwd, corpus[..n], fileName), MatchIndices(corpus[..n], fileName);
      if Reports(corpus[n], fileName) {
        assert links == before + [Join(cwd, corpus[n].path)] && idx == earlier + [n];
      } else {
        assert links == before && idx == earlier;
      }
      forall k | 0 <= k < |earlier|
        ensures corpus[..n][earlier[k]] == corpus[earlier[k]]
      {
      }
    }
  }

  /** A path is reported iff it is the joined path of a corpus file whose
      content references the target. */
  lemma FindLinksReportsExactly(cwd: string, corpus: Corpus, fileName: string, p: string)
    ensures p in FindLinks(cwd, corpus, fileName) <==>
            exists i :: 0 <= i < |corpus| && References(corpus[i].content, fileName)
                        && p == Join(cwd, corpus[i].path)
  {
    var links := FindLinks(cwd, corpus, fileName);
    var idx := MatchIndices(corpus, fileName);
    FindLinksFollowsWalkOrder(cwd, corpus, fileName);
    if p in links {
      var k :| 0 <= k < |links| && links[k] == p;
      assert References(corpus[idx[k]].content, fileName);
    }
    if exists i :: 0 <= i < |corpus| && References(corpus[i].content, fileName)
                   && p == Join(cwd, corpus[i].path) {
      var i :| 0 <= i < |corpus| && References(corpus[i].content, fileName)
               && p == Join(cwd, corpus[i].path);
      var k :| 0 <= k < |idx| && idx[k] == i;
      assert links[k] == p;
    }
  }

  /** Scanning one more file appends its joined path exactly when it
      references the target. */
  lemma FindLinksAppend(cwd: string, corpus: Corpus, file: SourceFile, fileName: string)
    ensures FindLinks(cwd, corpus + [file], fileName) ==
            FindLinks(cwd, corpus, fileName) +
            (if References(file.content, fileName) then [Join(cwd, file.path)] else [])
  {
    assert (corpus + [file])[..|corpus|] == corpus;
  }

  /** A corpus in which no file references the target yields no links. */
  lemma NoReferencingFileNoLinks(cwd: string, corpus: Corpus, fileName: string)
    requires forall i :: 0 <= i < |corpus| ==> !References(corpus[i].content, fileName)
    ensures FindLinks(cwd, corpus, fileName) == []
  {
    var links := FindLinks(cwd, corpus, fileName);
    if links != [] {
      FindLinksReportsExactly(cwd, corpus, fileName, links[0]);
    }
  }

  /** The corrected scan as a loop: one pass over the corpus that tests each
      file on its own and appends the joined path of each referencing file.
      The source's loop, which carries the pattern's `lastIndex` from file to
      file, is `GlobalRegex.ScanAsWritten`. */
  method CollectLinks(cwd: string, corpus: Corpus, fileName: string) returns (matching: seq<string>)
    ensures matching == FindLinks(cwd, corpus, fileName)
  {
    matching := [];
    for i := 0 to |corpus|
      invariant matching == FindLinks(cwd, corpus[..i], fileName)
    {
      var file := corpus[i];
      var filePath := Join(cwd, file.path);
      if ContainsReference(file.content, fileName) {
        matching := matching + [filePath];
      }
      assert corpus[..i + 1][..i] == corpus[..i];
    }
    assert corpus[..|corpus|] == corpus;
  }

}
