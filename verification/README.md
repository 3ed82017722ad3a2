# find-references, modelled in Dafny

`node/find-references.ts` builds a tree of "which file references which".
Starting from a root `LinkedNode`, `findReferences` asks `findLinks` for every
source file under the working directory whose text names the node's filename
immediately followed by a quote (`'`, `"`) or a source extension (`.js`, `.jsx`,
`.ts`, `.tsx`). It appends one child node per reported file, in walk order.
Then it expands every child that `isAtTopLevel` accepts, and that gate accepts
every file.

The model is functional:

- `Matcher` holds the match rule. The target is a literal string. The six
  alternatives are tried in the order the pattern lists them.
- `Links` holds `findLinks` over a corpus. The corpus is a sequence of
  (relative path, content) pairs in walk order and replaces the glob walk and
  the file reads. Each file is tested on its own.
- `GlobalRegex` holds the scan as the source actually writes it. The global
  pattern's `lastIndex` is carried from one file to the next (see Findings).
- `ReferenceTree` holds `LinkedNode`, `addLink`, the gate and
  `findReferences`. The source's recursion has no visited set and no depth
  bound, so `Expand` takes fuel. It answers `None` when the fuel runs out
  before the tree is complete; it never invents a tree. On a textual cycle
  the source overflows the JavaScript call stack and throws a `RangeError`
  to its caller; `None` for every fuel stands for that "no tree is
  returned".
- `Examples` holds concrete scenarios: the suffix rule, a two-leaf tree, a
  textual cycle that never completes, and a short-name cycle that stops.

The matcher receives the node's `filename` as stored
(`node/find-references.ts:44`). For the root that is whatever the caller
supplied. For every descendant it is the joined full path built at line 28.
So a descendant is only found again when some file's text matches that full
path followed by a quote or extension (`ShortNameReferencesStopAfterOneLevel`).
With the literal target of this model, that means the file names the full
path. Two files that name each other by short name therefore give a tree one
level deep. Only files that name each other's full paths make the recursion
run without end (`MutualFullPathReferencesNeverComplete`).

## Model

| member | source | states |
|---|---|---|
| Matcher.FirstAlternativeFrom | node/find-references.ts:25 | the alternative the pattern selects is the first one, in pattern order, that occurs at the position; none is selected only when no alternative occurs there |
| Matcher.FirstAlternative | node/find-references.ts:25 | an alternative is selected at a position exactly when some quote or extension starts there |
| Matcher.MatchedSuffixLength | node/find-references.ts:25 | the consumed alternative lies inside the content and is 3 characters long when it starts with a dot (`.js` or `.ts`) and 1 character long when it starts with a quote |
| Matcher.LongFormsNeverChosen | node/find-references.ts:25 | `.jsx` and `.tsx` are never the alternative the match consumes, because `.js` and `.ts` are tried first |
| Matcher.CoreSuffixesSuffice | node/find-references.ts:25 | the six alternatives accept exactly the positions that `'`, `"`, `.js`, `.ts` accept, so `.jsx` and `.tsx` are redundant |
| Matcher.SuffixNeedsStartCharacter | node/find-references.ts:25 | an alternative can only start at a quote or a dot |
| Matcher.UnfollowedOccurrencesDoNotReference | node/find-references.ts:25-31 | a content in which every occurrence of the target is followed by the end of text or by a character other than a quote or dot is not reported |
| Matcher.AbsentTargetDoesNotReference | node/find-references.ts:25-31 | a content that does not contain the target at all is never reported |
| Matcher.FirstMatch | node/find-references.ts:25-30 | the search answers the leftmost matching position at or after its start, and answers none only when no position from the start on matches |
| Matcher.ContainsReference | node/find-references.ts:24-30 | the per-file test succeeds iff the content holds the target immediately followed by a quote or a source extension |
| Links.Join | node/find-references.ts:28 | the reported path is the working directory, a separator, then the relative path, each recoverable from the result |
| Links.Reports | node/find-references.ts:30 | a corpus file is reported iff its content references the target |
| Links.FindLinks | node/find-references.ts:19-36 | the scan reports at most one path per corpus file |
| Links.MatchIndices | node/find-references.ts:27-33 | the referencing files' positions are strictly increasing, within the corpus, each references the target, and every referencing file is among them |
| Links.FindLinksFollowsWalkOrder | node/find-references.ts:27-35 | the k-th reported path is the joined path of the k-th referencing file in walk order, so the output is a subsequence of the corpus in walk order |
| Links.FindLinksReportsExactly | node/find-references.ts:24-33 | a path is reported iff it is the joined path of a corpus file whose content references the target |
| Links.FindLinksAppend | node/find-references.ts:27-33 | scanning one more file appends its joined path exactly when it references the target and leaves the earlier output unchanged |
| Links.NoReferencingFileNoLinks | node/find-references.ts:27-35 | when no file references the target the result is empty |
| Links.CollectLinks | node/find-references.ts:22-35 | the loop over the corpus produces exactly the per-file scan's output |
| GlobalRegex.GlobalTest | node/find-references.ts:25-30 | `test` on the global pattern succeeds iff some match starts at or after `lastIndex` (and `lastIndex` is within the text); on success the new `lastIndex` is the end of the leftmost such match, that is its position plus the target length plus 3 after a dot or 1 after a quote, strictly forward and within the text; failure resets it to 0; from `lastIndex` 0 it agrees with the per-file rule |
| GlobalRegex.MatchEnd | node/find-references.ts:25 | a match at a position ends inside the content, after the target and 3 more characters when a dot follows it, 1 more when a quote follows it |
| GlobalRegex.Scan | node/find-references.ts:27-33 | the loop with `lastIndex` threaded from one `test` call to the next holds at most one path per file tested |
| GlobalRegex.HitIndices | node/find-references.ts:27-33 | the positions of the files the loop reports are within the corpus and strictly increasing |
| GlobalRegex.HitIgnoresLaterFiles | node/find-references.ts:27-33 | whether a file is reported depends only on the files before it |
| GlobalRegex.HitIndicesExact | node/find-references.ts:27-33 | a file is among the reported positions iff its `test` from the `lastIndex` left by the earlier files succeeds |
| GlobalRegex.ScanFollowsHitIndices | node/find-references.ts:27-33 | the k-th reported path is the joined path of the k-th reported file, so the output is the joined paths of a strictly increasing sequence of corpus positions |
| GlobalRegex.ScanAsWritten | node/find-references.ts:25-33 | the scan with the pattern's `lastIndex` carried over reports at most one path per file |
| GlobalRegex.CarriedIndexResets | node/find-references.ts:25-33 | in the scan as written the first file is tested from the `lastIndex` passed in, and a file after an unreported one is tested from 0 |
| GlobalRegex.AsWrittenHitsReference | node/find-references.ts:25-33 | every file the scan as written reports references the target |
| GlobalRegex.FreshTestFollowsMatchRule | node/find-references.ts:25-33 | a file the scan as written tests from `lastIndex` 0 is reported iff it references the target |
| GlobalRegex.ScanAsWrittenIsSound | node/find-references.ts:27-33 | whatever `lastIndex` is carried in, every reported path belongs to a file that references the target |
| GlobalRegex.FindLinksAsWritten | node/find-references.ts:19-36 | the scan as written never reports a path the per-file scan does not report |
| GlobalRegex.FirstExampleTest | node/find-references.ts:25-30 | `test` for `u` on `xu'` from 0 succeeds and leaves `lastIndex` at 3 |
| GlobalRegex.ReportsFirstOnly | node/find-references.ts:25-33 | over two files, when the first file's `test` from 0 succeeds and the second file's `test` from the `lastIndex` it leaves fails, the loop reports the first file only |
| GlobalRegex.AsWrittenExampleScan | node/find-references.ts:25-33 | the scan as written over `xu'` then `u'` reports only the first file |
| GlobalRegex.PerFileReportsBoth | node/find-references.ts:27-33 | the per-file scan over two referencing files reports both, in order |
| GlobalRegex.PerFileExampleScan | node/find-references.ts:27-33 | the per-file scan over `xu'` then `u'` reports both files |
| GlobalRegex.CarriedLastIndexMissesFile | node/find-references.ts:25-33 | with target `u` and files `xu'`, `u'`, the scan as written reports only the first file while the per-file scan reports both |
| ReferenceTree.NewNode | node/find-references.ts:9-11 | a new node has the given filename and no links |
| ReferenceTree.AddLink | node/find-references.ts:13-15 | `addLink` appends exactly one node at the end and leaves the filename and the earlier links unchanged |
| ReferenceTree.AddLinks | node/find-references.ts:46-50 | adding children one at a time keeps the filename and yields the old links followed by the children in order |
| ReferenceTree.IsAtTopLevel | node/find-references.ts:38-41 | the gate accepts every file |
| ReferenceTree.Expand | node/find-references.ts:43-56 | a completed expansion keeps the node's filename and earlier links and appends exactly one child per reported path, in order, named by that path; with no reported path it returns the node unchanged |
| ReferenceTree.Children | node/find-references.ts:46-50 | one child per reported path, named by that path; a child the gate rejects is a fresh leaf |
| ReferenceTree.FindReferences | node/find-references.ts:43-56 | with the source's gate, the result is the given node (same filename, earlier links kept) with exactly one child appended per reported path, in order, named by that path, and it is returned unchanged when nothing references it |
| ReferenceTree.ChildrenExpandAccepted | node/find-references.ts:46-54 | the children are built iff every accepted child's own expansion completes, and each accepted child is that expansion |
| ReferenceTree.AcceptedChildIsExpanded | node/find-references.ts:49-54 | in a completed list of children, a child the gate accepts is its own expansion |
| ReferenceTree.AcceptedChildrenAreExpanded | node/find-references.ts:49-54 | after a completed expansion each accepted child equals its own expansion with one unit of fuel less |
| ReferenceTree.DefaultGateExpandsEveryChild | node/find-references.ts:38-54 | with `isAtTopLevel` every child is queued and expanded in turn |
| ReferenceTree.ExpandFuelMonotone | node/find-references.ts:43-56 | more fuel never changes a completed expansion, so the tree does not depend on the fuel once the fuel suffices |
| ReferenceTree.ChildrenFuelMonotone | node/find-references.ts:52-54 | more fuel never changes a completed list of children |
| ReferenceTree.ExpandHeightBound | node/find-references.ts:43-56 | an expansion that completes with a given fuel builds a tree at most that many levels deep |
| ReferenceTree.ChildrenHeightBound | node/find-references.ts:46-54 | each child built with a given fuel is at most that many levels deep |
| ReferenceTree.RejectAllGivesOneLevel | node/find-references.ts:46-54 | with a gate that rejects every file the expansion completes with one unit of fuel, the children are fresh leaves, one per reported path, and the tree is at most one level deep |
| ReferenceTree.AcceptedChildBlocks | node/find-references.ts:46-54 | one accepted child whose expansion does not complete keeps the whole list of children from completing |
| ReferenceTree.CycleNeverCompletes | node/find-references.ts:52-54 | starting from any file of a set in which each file is referenced by an expanded file of the set, the expansion never completes, whatever the fuel |
| Examples.QuotedOrExtendedNameReferences | node/find-references.ts:25 | `'utils'`, `"utils"` and `utils.ts` are references to `utils` |
| Examples.BareNameDoesNotReference | node/find-references.ts:25 | `utils` at the end of the text or followed by `(` is not a reference |
| Examples.JsonFileNameCountsAsReference | node/find-references.ts:25 | `utils.json` counts as a reference to `utils`, a false positive of textual matching |
| Examples.RootReferencedTwice | node/find-references.ts:27-33 | in the corpus `root.ts`, `a.ts`, `b.ts` the target `root` is reported for `a.ts` and `b.ts`, in that order |
| Examples.TwoReferencingFiles | node/find-references.ts:43-55 | the tree from `root` over that corpus is the root with two leaves, `a.ts` then `b.ts`, and two units of fuel suffice |
| Examples.MutualFullPathReferencesNeverComplete | node/find-references.ts:43-54 | two files naming each other's full path make the expansion never complete |
| Examples.ShortNameReferencesStopAfterOneLevel | node/find-references.ts:44-47 | two files naming each other by short name give a tree one level deep, because descendants are searched for by full path |

## Left out

- The file-system walk (`glob.sync` with `**/*.{js,jsx,ts,tsx}`), `process.cwd()` and `fs.readFileSync` are I/O. They become the corpus and working-directory parameters. The model assumes the corpus is the same on every call, as a fixed snapshot.
- Read and walk failures (I/O errors that abort the traversal) are not modelled, because the corpus already holds every content.
- Pattern syntax errors: a file name that is not a valid pattern (a directory named `c++`, say, where `++` repeats nothing) makes `new RegExp` throw a `SyntaxError` that aborts the whole traversal. No member models this error path, because the model never builds a pattern.
- `path.join` normalisation (collapsing `..`, `.` and doubled separators) is left out. `Join` concatenates the directory, `/` and the relative path.
- Regular-expression semantics of the target are left out. The file name is put into the pattern unescaped, so any metacharacter in it acts as one. The model treats the target as a literal string. Every descendant target is a joined path with an extension, so it contains `.`, which the real pattern matches against any character. For a path whose only metacharacter is `.`, the model therefore reports a subset of the files the real pattern reports, never more. Other metacharacters common in paths break that. In `[id].tsx` the brackets make a one-character class. In `(auth)` the parentheses make a group. In `$id.tsx` the `$` is an end-of-input assertion, so the pattern never matches. In `_auth+` the `+` is a quantifier. For such paths the real pattern can report fewer files than the model, or other ones.
- JavaScript strings are sequences of UTF-16 code units. The model uses `seq<char>`, with no encoding.
- Stack overflow: on a textual cycle `findReferences` recurses until the JavaScript call stack is exhausted and a `RangeError` ("Maximum call stack size exceeded") propagates to the caller. The model has no call stack. `Expand` takes fuel and returns `None` when the fuel runs out; a `None` only says "not within this fuel". `CycleNeverCompletes` gives a sufficient condition under which no fuel suffices, a case in which the source throws instead of returning a tree. The converse is not proved.
- The order of work inside `findReferences` is not modelled: the source appends all children before expanding any of them. For a fixed corpus the resulting tree is the same, so the model builds each child completely before the next one.
- Node identity and in-place mutation are not modelled. "Returns the node it was given" becomes "same filename, earlier links kept" on the returned value.
- `#links` is private in the source. In the model it is a plain field of `LinkedNode`.
- The suggested fixes (a visited set, a cached corpus, escaped patterns, shared nodes) are not modelled, because the code has none of them.

## Findings

| source | as written | input that shows it | evidently intended | confidence | as-written member | corrected member |
|---|---|---|---|---|---|---|
| node/find-references.ts:25-30 | the pattern is built with the `g` flag once per `findLinks` call, and `regex.test` is reused for every file, so each file's search starts at the `lastIndex` left by the previous file's match | target `u`, corpus `a.ts` = `xu'` then `b.ts` = `u'`: the first match leaves `lastIndex` 3, longer than `u'`, so `b.ts` is not reported | each file is tested from its start, as the comment on line 24 describes | high; not executed | GlobalRegex.CarriedLastIndexMissesFile | Links.FindLinks |

`GlobalRegex.FindLinksAsWritten` models the scan as written.
`GlobalRegex.CarriedLastIndexMissesFile` exhibits the lost file.
`Links.FindLinks` is the corrected scan that the tree builder uses.
`Links.FindLinksReportsExactly` proves that it reports every referencing file.
