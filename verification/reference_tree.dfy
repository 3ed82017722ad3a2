/** The tree builder: `LinkedNode`, the `isAtTopLevel` gate and the
    recursive `findReferences`. The source's recursion has no visited set
    and no depth bound, so the expansion here carries fuel and answers
    `None` when the fuel runs out before the tree is complete. */
module ReferenceTree {
  import opened Wrappers
  import opened Links

  /** One file of the reference tree and the nodes of the files found to
      reference it, in discovery order. */
  datatype LinkedNode = LinkedNode(filename: string, links: seq<LinkedNode>)

  /** Decides whether a discovered file is expanded in turn. */
  type Gate = string -> bool

  /** The constructor: the given filename and no links yet. */
  function NewNode(filename: string): (n: LinkedNode)
    ensures n.filename == filename && |n.links| == 0
  {
    LinkedNode(filename, [])
  }

  /** `addLink`: appends exactly one node at the end of the links and leaves
      the filename and the earlier links as they were. */
  function AddLink(n: LinkedNode, child: LinkedNode): (r: LinkedNode)
    ensures r.filename == n.filename
    ensures |r.links| == |n.links| + 1
    ensures r.links[..|n.links|] == n.links && r.links[|n.links|] == child
  {
    n.(links := n.links + [child])
  }

  /** Adds the children one by one, as the loop of `findReferences` does. */
  function AddLinks(n: LinkedNode, children: seq<LinkedNode>): (r: LinkedNode)
    decreases |children|
    ensures r.filename == n.filename
    ensures r.links == n.links + children
  {
    if children == [] then n
    else AddLinks(AddLink(n, children[0]), children[1..])
  }

  /** `isAtTopLevel`: the gate of the source accepts every file. */
  function IsAtTopLevel(fileName: string): (accept: bool)
    ensures accept
  {
    true
  }

  /** A gate that expands nothing. */
  function RejectAll(fileName: string): (accept: bool)
    ensures !accept
  {
    false
  }

  /** `findReferences` on `node` with an arbitrary gate: the files that
      reference `node.filename` become new children, appended in the order
      `findLinks` reports them; each child the gate accepts is expanded in
      turn with one unit of fuel less. */
  function Expand(cwd: string, corpus: Corpus, gate: Gate, node: LinkedNode, fuel: nat): (r: Option<LinkedNode>)
    decreases fuel, 0
    ensures r.Some? ==> fuel > 0
    ensures r.Some? ==> r.value.filename == node.filename
    ensures r.Some? ==> |r.value.links| == |node.links| + |FindLinks(cwd, corpus, node.filename)|
    ensures r.Some? ==> r.value.links[..|node.links|] == node.links
    ensures r.Some? ==> forall k :: 0 <= k < |FindLinks(cwd, corpus, node.filename)| ==>
              r.value.links[|node.links| + k].filename == FindLinks(cwd, corpus, node.filename)[k]
    ensures fuel > 0 && FindLinks(cwd, corpus, node.filename) == [] ==> r == Some(node)
  {
    if fuel == 0 then None
    else
      var found := FindLinks(cwd, corpus, node.filename);
      match Children(cwd, corpus, gate, found, fuel - 1)
      case None => None
      case Some(kids) => Some(AddLinks(node, kids))
  }

  /** The children made for the reported paths `found`, each expanded with
      `fuel` when the gate accepts it and left a leaf otherwise; `None` when
      some accepted child does not finish within `fuel`. */
  function Children(cwd: string, corpus: Corpus, gate: Gate, found: seq<string>, fuel: nat): (r: Option<seq<LinkedNode>>)
    decreases fuel, 1 + |found|
    ensures r.Some? ==> |r.value| == |found|
    ensures r.Some? ==> forall k :: 0 <= k < |found| ==> r.value[k].filename == found[k]
    ensures r.Some? ==> forall k :: 0 <= k < |found| && !gate(found[k]) ==> r.value[k] == NewNode(found[k])
  {
    if found == [] then Some([])
    else
      var child := NewNode(found[0]);
      var first := if gate(found[0]) then Expand(cwd, corpus, gate, child, fuel) else Some(child);
      var rest := Children(cwd, corpus, gate, found[1..], fuel);
      if first.Some? && rest.Some? then Some([first.value] + rest.value) else None
  }

  /** `findReferences` as the source wires it, with `isAtTopLevel` as gate. */
  function FindReferences(cwd: string, corpus: Corpus, root: LinkedNode, fuel: nat): (r: Option<LinkedNode>)
    ensures r.Some? ==> r.value.filename == root.filename
    ensures r.Some? ==> |root.links| <= |r.value.links| && r.value.links[..|root.links|] == root.links
    ensures r.Some? ==> |r.value.links| == |root.links| + |FindLinks(cwd, corpus, root.filename)|
    ensures r.Some? ==> forall k :: 0 <= k < |FindLinks(cwd, corpus, root.filename)| ==>
              r.value.links[|root.links| + k].filename == FindLinks(cwd, corpus, root.filename)[k]
    ensures fuel > 0 && FindLinks(cwd, corpus, root.filename) == [] ==> r == Some(root)
  {
    Expand(cwd, corpus, IsAtTopLevel, root, fuel)
  }

  /** The tree below `n` is at most `h` levels deep (a leaf has height 0). */
  predicate HeightAtMost(n: LinkedNode, h: nat)
    decreases n
  {
    n.links == [] || (h > 0 && forall k :: 0 <= k < |n.links| ==> HeightAtMost(n.links[k], h - 1))
  }

  /** The children list is built exactly when every accepted child's own
      expansion completes, and then each accepted child is that expansion. */
  lemma {:induction false} ChildrenExpandAccepted(cwd: string, corpus: Corpus, gate: Gate, found: seq<string>, fuel: nat)
    ensures var r := Children(cwd, corpus, gate, found, fuel);
            r.None? <==> exists k :: 0 <= k < |found| && gate(found[k]) &&
                                     Expand(cwd, corpus, gate, NewNode(found[k]), fuel).None?
    ensures var r := Children(cwd, corpus, gate, found, fuel);
            r.Some? ==> forall k :: 0 <= k < |found| && gate(found[k]) ==>
              Expand(cwd, corpus, gate, NewNode(found[k]), fuel) == Some(r.value[k])
    decreases |found|
  {
    if found != [] {
      ChildrenExpandAccepted(cwd, corpus, gate, found[1..], fuel);
      var r := Children(cwd, corpus, gate, found, fuel);
      var rest := Children(cwd, corpus, gate, found[1..], fuel);
      forall k | 1 <= k < |found|
        ensures found[k] == found[1..][k - 1]
      {
      }
      if r.Some? {
        assert rest.Some? && r.value == [r.value[0]] + rest.value;
      }
    }
  }

  /** The children a completed expansion appended are the ones `Children`
      built for the reported paths. */
  lemma ExpandAppendsChildren(cwd: string, corpus: Corpus, gate: Gate, node: LinkedNode, fuel: nat)
    requires Expand(cwd, corpus, gate, node, fuel).Some?
    ensures var found := FindLinks(cwd, corpus, node.filename);
            var kids := Children(cwd, corpus, gate, found, fuel - 1);
            kids.Some? && Expand(cwd, corpus, gate, node, fuel).value.links == node.links + kids.value
  {
  }

  /** After a completed expansion, each child for a path the gate accepts
      is that path's own expansion with one unit of fuel less. */
  lemma AcceptedChildrenAreExpanded(cwd: string, corpus: Corpus, gate: Gate, node: LinkedNode, fuel: nat, k: nat)
    requires Expand(cwd, corpus, gate, node, fuel).Some?
    requires k < |FindLinks(cwd, corpus, node.filename)|
    requires gate(FindLinks(cwd, corpus, node.filename)[k])
    ensures Expand(cwd, corpus, gate, NewNode(FindLinks(cwd, corpus, node.filename)[k]), fuel - 1)
            == Some(Expand(cwd, corpus, gate, node, fuel).value.links[|node.links| + k])
  {
    var found := FindLinks(cwd, corpus, node.filename);
    ExpandAppendsChildren(cwd, corpus, gate, node, fuel);
    var kids := Children(cwd, corpus, gate, found, fuel - 1).value;
    AcceptedChildIsExpanded(cwd, corpus, gate, found, fuel - 1, k);
    var t := Expand(cwd, corpus, gate, node, fuel).value;
    assert t.links[|node.links| + k] == kids[k];
  }

  /** One accepted child of a completed list is its own expansion. */
  lemma AcceptedChildIsExpanded(cwd: string, corpus: Corpus, gate: Gate, found: seq<string>, fuel: nat, k: nat)
    requires Children(cwd, corpus, gate, found, fuel).Some?
    requires k < |found| && gate(found[k])
    ensures k < |Children(cwd, corpus, gate, found, fuel).value|
    ensures Expand(cwd, corpus, gate, NewNode(found[k]), fuel) == Some(Children(cwd, corpus, gate, found, fuel).value[k])
  {
    ChildrenExpandAccepted(cwd, corpus, gate, found, fuel);
  }

  /** With the source's gate every reported file becomes a child that is
      itself expanded, with one unit of fuel less. */
  lemma DefaultGateExpandsEveryChild(cwd: string, corpus: Corpus, root: LinkedNode, fuel: nat, k: nat)
    requires FindReferences(cwd, corpus, root, fuel).Some?
    requires k < |FindLinks(cwd, corpus, root.filename)|
    ensures FindReferences(cwd, corpus, NewNode(FindLinks(cwd, corpus, root.filename)[k]), fuel - 1)
            == Some(FindReferences(cwd, corpus, root, fuel).value.links[|root.links| + k])
  {
    AcceptedChildrenAreExpanded(cwd, corpus, IsAtTopLevel, root, fuel, k);
  }

  /** More fuel never changes a completed expansion: the tree does not
      depend on the fuel once the fuel suffices. */
  lemma {:induction false} ExpandFuelMonotone(cwd: string, corpus: Corpus, gate: Gate, node: LinkedNode, fuel: nat, more: nat)
    requires Expand(cwd, corpus, gate, node, fuel).Some?
    requires fuel <= more
    ensures Expand(cwd, corpus, gate, node, more) == Expand(cwd, corpus, gate, node, fuel)
    decreases fuel, 0
  {
    var found := FindLinks(cwd, corpus, node.filename);
    ExpandStep(cwd, corpus, gate, node, fuel);
    ExpandStep(cwd, corpus, gate, node, more);
    var kids := Children(cwd, corpus, gate, found, fuel - 1);
    ChildrenFuelMonotone(cwd, corpus, gate, found, fuel - 1, more - 1);
    assert Children(cwd, corpus, gate, found, more - 1) == kids;
  }

  /** One step of `Expand` with fuel left: the node with the children built
      for the reported paths appended, if they complete. */
  lemma ExpandStep(cwd: string, corpus: Corpus, gate: Gate, node: LinkedNode, fuel: nat)
    requires fuel > 0
    ensures var kids := Children(cwd, corpus, gate, FindLinks(cwd, corpus, node.filename), fuel - 1);
            Expand(cwd, corpus, gate, node, fuel) == if kids.Some? then Some(AddLinks(node, kids.value)) else None
  {
  }

  /** The fuel monotonicity of `Expand`, for a whole list of children. */
  lemma {:induction false} ChildrenFuelMonotone(cwd: string, corpus: Corpus, gate: Gate, found: seq<string>, fuel: nat, more: nat)
    requires Children(cwd, corpus, gate, found, fuel).Some?
    requires fuel <= more
    ensures Children(cwd, corpus, gate, found, more) == Children(cwd, corpus, gate, found, fuel)
    decreases fuel, 1 + |found|
  {
    if found != [] {
      if gate(found[0]) {
        ExpandFuelMonotone(cwd, corpus, gate, NewNode(found[0]), fuel, more);
      }
      ChildrenFuelMonotone(cwd, corpus, gate, found[1..], fuel, more);
    }
  }

  /** An expansion that completes with `fuel` builds a tree at most `fuel`
      levels deep below a fresh node. */
  lemma {:induction false} ExpandHeightBound(cwd: string, corpus: Corpus, gate: Gate, node: LinkedNode, fuel: nat)
    requires node.links == []
    requires Expand(cwd, corpus, gate, node, fuel).Some?
    ensures HeightAtMost(Expand(cwd, corpus, gate, node, fuel).value, fuel)
    decreases fuel, 0
  {
    var found := FindLinks(cwd, corpus, node.filename);
    ExpandAppendsChildren(cwd, corpus, gate, node, fuel);
    ChildrenHeightBound(cwd, corpus, gate, found, fuel - 1);
  }

  /** Every child built with `fuel` is at most `fuel` levels deep. */
  lemma {:induction false} ChildrenHeightBound(cwd: string, corpus: Corpus, gate: Gate, found: seq<string>, fuel: nat)
    requires Children(cwd, corpus, gate, found, fuel).Some?
    ensures var kids := Children(cwd, corpus, gate, found, fuel).value;
            forall k :: 0 <= k < |kids| ==> HeightAtMost(kids[k], fuel)
    decreases fuel, 1 + |found|
  {
    var kids := Children(cwd, corpus, gate, found, fuel).value;
    ChildrenExpandAccepted(cwd, corpus, gate, found, fuel);
    forall k | 0 <= k < |kids|
      ensures HeightAtMost(kids[k], fuel)
    {
      if gate(found[k]) {
        ExpandHeightBound(cwd, corpus, gate, NewNode(found[k]), fuel);
      }
    }
  }

  /** With a gate that accepts nothing, one unit of fuel suffices and the
      tree is the root with one leaf per reported file: depth at most 1. */
  lemma RejectAllGivesOneLevel(cwd: string, corpus: Corpus, root: LinkedNode, fuel: nat)
    requires fuel > 0
    requires root.links == []
    ensures var r := Expand(cwd, corpus, RejectAll, root, fuel);
            var found := FindLinks(cwd, corpus, root.filename);
            r.Some? && HeightAtMost(r.value, 1) && |r.value.links| == |found| &&
            forall k :: 0 <= k < |found| ==> r.value.links[k] == NewNode(found[k])
  {
    var found := FindLinks(cwd, corpus, root.filename);
    var kids := Children(cwd, corpus, RejectAll, found, fuel - 1);
    ChildrenExpandAccepted(cwd, corpus, RejectAll, found, fuel - 1);
    assert kids.Some?;
    ExpandAppendsChildren(cwd, corpus, RejectAll, root, fuel);
  }

  /** A set of files each of which is referenced by some file of the set
      that the gate expands: a textual cycle. */
  ghost predicate SelfSustaining(cwd: string, corpus: Corpus, gate: Gate, files: set<string>) {
    forall x {:trigger HasExpandedReferrer(cwd, corpus, gate, files, x)} ::
      x in files ==> HasExpandedReferrer(cwd, corpus, gate, files, x)
  }

  /** Some file of `files` that the gate expands references `x`. */
  ghost predicate HasExpandedReferrer(cwd: string, corpus: Corpus, gate: Gate, files: set<string>, x: string) {
    exists k :: 0 <= k < |FindLinks(cwd, corpus, x)| && FindLinks(cwd, corpus, x)[k] in files
                && gate(FindLinks(cwd, corpus, x)[k])
  }

  /** Expansion from a file of a textual cycle never completes, whatever the
      fuel: the source recurses there until the call stack overflows, and
      the resulting `RangeError` reaches the caller, so no tree is
      returned. */
  lemma {:induction false} CycleNeverCompletes(cwd: string, corpus: Corpus, gate: Gate, files: set<string>, node: LinkedNode, fuel: nat)
    requires SelfSustaining(cwd, corpus, gate, files)
    requires node.filename in files
    ensures Expand(cwd, corpus, gate, node, fuel).None?
    decreases fuel
  {
    if fuel > 0 {
      var found := FindLinks(cwd, corpus, node.filename);
      assert HasExpandedReferrer(cwd, corpus, gate, files, node.filename);
      var k :| 0 <= k < |found| && found[k] in files && gate(found[k]);
      var y := found[k];
      CycleNeverCompletes(cwd, corpus, gate, files, NewNode(y), fuel - 1);
      AcceptedChildBlocks(cwd, corpus, gate, found, fuel - 1, k);
    }
  }

  /** One accepted child whose expansion does not complete keeps the whole
      list of children from completing. */
  lemma AcceptedChildBlocks(cwd: string, corpus: Corpus, gate: Gate, found: seq<string>, fuel: nat, k: nat)
    requires k < |found| && gate(found[k])
    requires Expand(cwd, corpus, gate, NewNode(found[k]), fuel).None?
    ensures Children(cwd, corpus, gate, found, fuel).None?
  {
    ChildrenExpandAccepted(cwd, corpus, gate, found, fuel);
  }

}
