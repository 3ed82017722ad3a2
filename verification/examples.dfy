/** Concrete scenarios of the match rule and of the tree builder. The
    working directory stays a parameter where it can: only its first
    character, a `/`, matters to these scenarios. */
module Examples {
  import opened Wrappers
  import opened Strings
  import opened Matcher
  import opened Links
  import opened ReferenceTree

  /** The quoted name and the name with an extension are references. */
  lemma QuotedOrExtendedNameReferences()
    ensures References("import x from 'utils'", "utils")
    ensures References("import \"utils\"", "utils")
    ensures References("require(utils.ts)", "utils")
  {
    var c1, c2, c3 := "import x from 'utils'", "import \"utils\"", "require(utils.ts)";
    assert OccursAt(c1, "utils", 15) && OccursAt(c1, Suffixes[0], 20);
    assert ReferenceAt(c1, "utils", 15);
    assert OccursAt(c2, "utils", 8) && OccursAt(c2, Suffixes[1], 13);
    assert ReferenceAt(c2, "utils", 8);
    assert OccursAt(c3, "utils", 8) && OccursAt(c3, Suffixes[4], 13);
    assert ReferenceAt(c3, "utils", 8);
  }

  /** The bare name at the end of the text, or followed by `(`, is not a
      reference. */
  lemma BareNameDoesNotReference()
    ensures !References("utils", "utils")
    ensures !References("utils(", "utils")
  {
    UnfollowedOccurrencesDoNotReference("utils", "utils");
    var c := "utils(";
    forall i: nat | OccursAt(c, "utils", i)
      ensures i + |"utils"| == |c| || !SuffixStart(c[i + |"utils"|])
    {
      OccursAtChar(c, "utils", i, 0);
    }
    UnfollowedOccurrencesDoNotReference(c, "utils");
  }

  /** Textual matching admits false positives: `utils.json` names `utils`
      followed by `.js`. */
  lemma JsonFileNameCountsAsReference()
    ensures References("load('utils.json')", "utils")
  {
    var c := "load('utils.json')";
    assert OccursAt(c, "utils", 6) && OccursAt(c, Suffixes[2], 11);
    assert ReferenceAt(c, "utils", 6);
  }

  /** The working directory is an absolute path. */
  predicate Absolute(cwd: string) {
    |cwd| > 0 && cwd[0] == '/'
  }

  /** A file with no `/` in its content references no path under an
      absolute working directory. */
  lemma NoSlashNoPathReference(cwd: string, rel: string, content: string)
    requires Absolute(cwd)
    requires forall j :: 0 <= j < |content| ==> content[j] != '/'
    ensures !References(content, Join(cwd, rel))
  {
    AbsentFirstCharacter(content, Join(cwd, rel));
  }

  /** A fresh node whose file nothing references expands to itself. */
  lemma UnreferencedNodeIsLeaf(cwd: string, corpus: Corpus, gate: Gate, p: string, fuel: nat)
    requires fuel > 0
    requires FindLinks(cwd, corpus, p) == []
    ensures Expand(cwd, corpus, gate, NewNode(p), fuel) == Some(NewNode(p))
  {
  }

  /** When every reported path is itself unreferenced, two units of fuel
      build the root with one leaf per reported path. */
  lemma OneLevelOfLeaves(cwd: string, corpus: Corpus, root: string)
    requires forall k :: 0 <= k < |FindLinks(cwd, corpus, root)| ==>
               FindLinks(cwd, corpus, FindLinks(cwd, corpus, root)[k]) == []
    ensures var found := FindLinks(cwd, corpus, root);
            var r := FindReferences(cwd, corpus, NewNode(root), 2);
            r.Some? && r.value.filename == root && |r.value.links| == |found| &&
            forall k :: 0 <= k < |found| ==> r.value.links[k] == NewNode(found[k])
  {
    var found := FindLinks(cwd, corpus, root);
    var kids := Children(cwd, corpus, IsAtTopLevel, found, 1);
    ChildrenExpandAccepted(cwd, corpus, IsAtTopLevel, found, 1);
    forall k | 0 <= k < |found|
      ensures Expand(cwd, corpus, IsAtTopLevel, NewNode(found[k]), 1) == Some(NewNode(found[k]))
    {
      UnreferencedNodeIsLeaf(cwd, corpus, IsAtTopLevel, found[k], 1);
    }
    assert kids.Some?;
    ExpandAppendsChildren(cwd, corpus, IsAtTopLevel, NewNode(root), 2);
  }

  const RootFile := SourceFile("root.ts", "no links")
  const ImportsRootTs := SourceFile("a.ts", "import root.ts")
  const QuotesRoot := SourceFile("b.ts", "from 'root'")

  /** Walk order: `root.ts`, `a.ts`, `b.ts`. */
  const RootCorpus: Corpus := [RootFile, ImportsRootTs, QuotesRoot]

  /** `root` is referenced by `a.ts` (by extension) and `b.ts` (by quote),
      not by `root.ts` itself. */
  lemma RootFileReferences()
    ensures !References(RootFile.content, "root")
    ensures References(ImportsRootTs.content, "root")
    ensures References(QuotesRoot.content, "root")
  {
    AbsentFirstCharacter(RootFile.content, "root");
    var c := ImportsRootTs.content;
    assert OccursAt(c, "root", 7) && OccursAt(c, Suffixes[4], 11);
    assert ReferenceAt(c, "root", 7);
    c := QuotesRoot.content;
    assert OccursAt(c, "root", 6) && OccursAt(c, Suffixes[0], 10);
    assert ReferenceAt(c, "root", 6);
  }

  /** Of three files, when only the last two reference the target, the
      scan reports those two, in order. */
  lemma LastTwoReported(cwd: string, x: SourceFile, y: SourceFile, z: SourceFile, fileName: string)
    requires !References(x.content, fileName)
    requires References(y.content, fileName) && References(z.content, fileName)
    ensures FindLinks(cwd, [x, y, z], fileName) == [Join(cwd, y.path), Join(cwd, z.path)]
  {
    FindLinksAppend(cwd, [], x, fileName);
    FindLinksAppend(cwd, [x], y, fileName);
    FindLinksAppend(cwd, [x, y], z, fileName);
    assert [] + [x] == [x] && [x] + [y] == [x, y] && [x, y] + [z] == [x, y, z];
  }

  /** The links of `root`, in walk order. */
  lemma RootReferencedTwice(cwd: string)
    ensures FindLinks(cwd, RootCorpus, "root") == [Join(cwd, "a.ts"), Join(cwd, "b.ts")]
  {
    RootFileReferences();
    LastTwoReported(cwd, RootFile, ImportsRootTs, QuotesRoot, "root");
  }

  /** No content of the corpus holds a `/`, so no path is referenced. */
  lemma RootCorpusNamesNoPath(cwd: string, rel: string)
    requires Absolute(cwd)
    ensures FindLinks(cwd, RootCorpus, Join(cwd, rel)) == []
  {
    NoSlashNoPathReference(cwd, rel, RootFile.content);
    NoSlashNoPathReference(cwd, rel, ImportsRootTs.content);
    NoSlashNoPathReference(cwd, rel, QuotesRoot.content);
    NoReferencingFileNoLinks(cwd, RootCorpus, Join(cwd, rel));
  }

  /** The tree from `root` has the two referencing files as leaves, in walk
      order, and two units of fuel suffice. */
  lemma TwoReferencingFiles(cwd: string)
    requires Absolute(cwd)
    ensures FindReferences(cwd, RootCorpus, NewNode("root"), 2) ==
            Some(LinkedNode("root", [NewNode(Join(cwd, "a.ts")), NewNode(Join(cwd, "b.ts"))]))
  {
    RootReferencedTwice(cwd);
    RootCorpusNamesNoPath(cwd, "a.ts");
    RootCorpusNamesNoPath(cwd, "b.ts");
    OneLevelOfLeaves(cwd, RootCorpus, "root");
    var t := FindReferences(cwd, RootCorpus, NewNode("root"), 2).value;
    assert t.links == [NewNode(Join(cwd, "a.ts")), NewNode(Join(cwd, "b.ts"))];
  }

  const ImportsB := SourceFile("a.ts", "import '/w/b.ts'")
  const ImportsA := SourceFile("b.ts", "import '/w/a.ts'")

  /** Two files of the directory `/w` naming each other's full path. */
  const CycleCorpus: Corpus := [ImportsB, ImportsA]

  /** Which file of the cycle corpus references which full path. */
  lemma CycleFileReferences()
    ensures !References(ImportsB.content, "/w/a.ts")
    ensures References(ImportsA.content, "/w/a.ts")
    ensures References(ImportsB.content, "/w/b.ts")
  {
    var c := ImportsB.content;
    forall i: nat | OccursAt(c, "/w/a.ts", i)
      ensures i + 7 == |c| || !SuffixStart(c[i + 7])
    {
      OccursAtChar(c, "/w/a.ts", i, 0);
      OccursAtChar(c, "/w/a.ts", i, 3);
    }
    UnfollowedOccurrencesDoNotReference(c, "/w/a.ts");
    assert OccursAt(c, "/w/b.ts", 8) && OccursAt(c, Suffixes[0], 15);
    assert ReferenceAt(c, "/w/b.ts", 8);
    c := ImportsA.content;
    assert OccursAt(c, "/w/a.ts", 8) && OccursAt(c, Suffixes[0], 15);
    assert ReferenceAt(c, "/w/a.ts", 8);
  }

  /** `/w/a.ts` is referenced by `b.ts` only, `/w/b.ts` by `a.ts`. The
      working directory is a parameter pinned by the precondition rather
      than a literal, which keeps the verifier from unrolling `FindLinks` on
      literal arguments. */
  lemma CycleLinks(cwd: string)
    requires cwd == "/w"
    ensures FindLinks(cwd, CycleCorpus, Join(cwd, "a.ts")) == [Join(cwd, "b.ts")]
    ensures Join(cwd, "a.ts") in FindLinks(cwd, CycleCorpus, Join(cwd, "b.ts"))
  {
    assert Join(cwd, "a.ts") == "/w/a.ts" && Join(cwd, "b.ts") == "/w/b.ts";
    CycleFileReferences();
    FindLinksAppend(cwd, [], ImportsB, "/w/a.ts");
    FindLinksAppend(cwd, [ImportsB], ImportsA, "/w/a.ts");
    assert [ImportsB] + [ImportsA] == CycleCorpus;
    FindLinksReportsExactly(cwd, CycleCorpus, "/w/b.ts", "/w/a.ts");
    assert Join(cwd, CycleCorpus[0].path) == "/w/a.ts";
  }

  /** Expansion from `/w/a.ts` never completes, whatever the fuel. The
      working directory is pinned as in `CycleLinks`. */
  lemma MutualFullPathReferencesNeverComplete(cwd: string, fuel: nat)
    requires cwd == "/w"
    ensures FindReferences(cwd, CycleCorpus, NewNode(Join(cwd, "a.ts")), fuel).None?
  {
    var a, b := Join(cwd, "a.ts"), Join(cwd, "b.ts");
    var files := {a, b};
    CycleLinks(cwd);
    assert HasExpandedReferrer(cwd, CycleCorpus, IsAtTopLevel, files, a) by {
      assert FindLinks(cwd, CycleCorpus, a)[0] == b;
    }
    assert HasExpandedReferrer(cwd, CycleCorpus, IsAtTopLevel, files, b) by {
      var links := FindLinks(cwd, CycleCorpus, b);
      var k :| 0 <= k < |links| && links[k] == a;
    }
    CycleNeverCompletes(cwd, CycleCorpus, IsAtTopLevel, files, NewNode(a), fuel);
  }

  const ImportsBShort := SourceFile("a.ts", "import b.ts")
  const ImportsAShort := SourceFile("b.ts", "import a.ts")

  /** Two files naming each other by short name only. */
  const ShortNameCorpus: Corpus := [ImportsBShort, ImportsAShort]

  /** The root `a` is referenced by `b.ts` only. */
  lemma ShortNameLinksOfA(cwd: string)
    ensures FindLinks(cwd, ShortNameCorpus, "a") == [Join(cwd, "b.ts")]
  {
    assert !References(ImportsBShort.content, "a") by {
      AbsentFirstCharacter(ImportsBShort.content, "a");
    }
    var c := ImportsAShort.content;
    assert c[7..8] == "a" by { assert c[7] == 'a'; }
    assert Suffixes[4] == ".ts";
    assert c[8..11] == ".ts" by { assert c[8] == '.' && c[9] == 't' && c[10] == 's'; }
    assert OccursAt(c, "a", 7) && OccursAt(c, Suffixes[4], 8);
    assert ReferenceAt(c, "a", 7);
    FindLinksAppend(cwd, [], ImportsBShort, "a");
    FindLinksAppend(cwd, [ImportsBShort], ImportsAShort, "a");
    assert [ImportsBShort] + [ImportsAShort] == ShortNameCorpus;
  }

  /** No content of the corpus holds a `/`, so no path is referenced. */
  lemma ShortNameCorpusNamesNoPath(cwd: string, rel: string)
    requires Absolute(cwd)
    ensures FindLinks(cwd, ShortNameCorpus, Join(cwd, rel)) == []
  {
    NoSlashNoPathReference(cwd, rel, ImportsBShort.content);
    NoSlashNoPathReference(cwd, rel, ImportsAShort.content);
    NoReferencingFileNoLinks(cwd, ShortNameCorpus, Join(cwd, rel));
  }

  /** The root `a` finds `b.ts`, but that child is searched for by its full
      path, which no content holds, so the tree stops after one level. */
  lemma ShortNameReferencesStopAfterOneLevel(cwd: string)
    requires Absolute(cwd)
    ensures FindReferences(cwd, ShortNameCorpus, NewNode("a"), 2) ==
            Some(LinkedNode("a", [NewNode(Join(cwd, "b.ts"))]))
  {
    ShortNameLinksOfA(cwd);
    ShortNameCorpusNamesNoPath(cwd, "b.ts");
    OneLevelOfLeaves(cwd, ShortNameCorpus, "a");
    var t := FindReferences(cwd, ShortNameCorpus, NewNode("a"), 2).value;
    assert t.links == [NewNode(Join(cwd, "b.ts"))];
  }

}
