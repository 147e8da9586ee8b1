/** Parsing a whole devicetree, and finding a node by its path. */
module DeviceTreeSearch {
  import opened Prelude
  import opened DeviceTreeBlob
  import opened DeviceTree

  const DEVICE_TREE_MAGIC: nat := 0xD00D_FEED
  const DEVICE_TREE_VERSION: nat := 17

  /** The header fields that are read, at their offsets (section 5.2 of the Devicetree Specification v0.4). */
  predicate HeaderIsGood(b: Blob) {
    && WordAt(b, 0) == DEVICE_TREE_MAGIC
    && (WordAt(b, 20) == DEVICE_TREE_VERSION || WordAt(b, 24) == DEVICE_TREE_VERSION)
  }

  function StructBlock(b: Blob): nat {
    WordAt(b, 8)
  }

  function StringsBlock(b: Blob): nat {
    WordAt(b, 12)
  }

  /** What parsing the structure block yields when the pools are large enough. */
  function RootOf(b: Blob): NodesResult {
    ParseNode(b, StringsBlock(b), StructBlock(b))
  }

  /** No kernel panic, and no write through NULL. */
  ghost predicate Accepted(b: Blob) {
    var s := RootOf(b);
    && HeaderIsGood(b) && s.Parsed? && s.nodes.Node?
    && Count(s.nodes) < NUM_DEVICE_TREE_NODES && AllProps(s.nodes) < NUM_DEVICE_TREE_NODES
    && WordAt(b, s.at) == END
  }

  // ---------------------------------------------------------------- every flattened tree within capacity

  function ListLength(l: PropList): nat {
    if l.NoMore? then 0 else 1 + ListLength(l.next)
  }

  function TreeNodes(t: Tree): nat {
    if t.Nothing? then 0 else 1 + TreeNodes(t.child) + TreeNodes(t.next)
  }

  function TreeProps(t: Tree): nat {
    if t.Nothing? then 0 else ListLength(t.properties) + TreeProps(t.child) + TreeProps(t.next)
  }

  lemma {:induction false} SameLength(b: Blob, ps: Props, l: PropList)
    requires SameProps(b, ps, l)
    ensures PropCount(ps) == ListLength(l)
  {
    if l.More? {
      SameLength(b, ps.next, l.next);
    }
  }

  lemma {:induction false} SameSize(b: Blob, ns: Nodes, t: Tree)
    requires SameTree(b, ns, t)
    ensures Count(ns) == TreeNodes(t) && AllProps(ns) == TreeProps(t)
  {
    if t.Tree? {
      SameLength(b, ns.properties, t.properties);
      SameSize(b, ns.child, t.child);
      SameSize(b, ns.next, t.next);
    }
  }

  /**
   The header as section 5.2 lays it out: the magic number, the offsets of the structure block and
   of the strings block, version 17 as the version or as the last compatible one, and the number
   of the boot CPU.
   */
  predicate HeaderStands(b: Blob, structAt: nat, stringsAt: nat, cpu: nat) {
    && |b| >= 40 && b[0] == 0xD0 && b[1] == 0x0D && b[2] == 0xFE && b[3] == 0xED
    && Number32(b, 8) == structAt && Number32(b, 12) == stringsAt && Number32(b, 28) == cpu
    && (TokenStands(b, 20, 17) || TokenStands(b, 24, 17))
  }

  /** The whole blob: the header, and a tree with one root in the structure block. */
  predicate Flattens(b: Blob, structAt: nat, stringsAt: nat, cpu: nat, t: Tree) {
    && HeaderStands(b, structAt, stringsAt, cpu)
    && t.Tree? && t.next == Nothing && NodeStands(b, stringsAt, structAt, t)
  }

  lemma HeaderIsRead(b: Blob, structAt: nat, stringsAt: nat, cpu: nat)
    requires HeaderStands(b, structAt, stringsAt, cpu)
    ensures HeaderIsGood(b) && StructBlock(b) == structAt && StringsBlock(b) == stringsAt && WordAt(b, 28) == cpu
  {
    assert Number32(b, 0) == 0xD00D_FEED;
  }

  /**
   A flattened tree behind such a header is accepted if and only if it has at most 255 nodes
   and 255 properties in all and its last END_NODE is followed by END at once; a NOP token
   there, before END, is not skipped. When it is accepted, the result is that tree.
   */
  lemma FlattenedTreeIsAccepted(b: Blob, structAt: nat, stringsAt: nat, cpu: nat, t: Tree)
    requires Flattens(b, structAt, stringsAt, cpu, t)
    ensures Accepted(b) <==>
      TreeNodes(t) <= 255 && TreeProps(t) <= 255 && TokenStands(b, NodeEnd(structAt, t), 9)
    ensures RootOf(b).Parsed? && SameTree(b, RootOf(b).nodes, t) && RootOf(b).at == NodeEnd(structAt, t)
    ensures WordAt(b, 28) == cpu
  {
    HeaderIsRead(b, structAt, stringsAt, cpu);
    ParsesNode(b, stringsAt, structAt, t);
    SameSize(b, RootOf(b).nodes, t);
  }

  // ---------------------------------------------------------------- the whole tree

  /** DeviceTree_parse, with empty pools. */
  method ParseTree(blob: Blob) returns (ok: bool, bootCpu: nat, root: nat, parser: Parser)
    ensures ok <==> Accepted(blob)
    ensures ok ==> root == 0 && parser.blob == blob && parser.Holds(RootOf(blob).nodes, 0, 0)
    ensures forall structAt: nat, stringsAt: nat, cpu: nat, t: Tree :: Flattens(blob, structAt, stringsAt, cpu, t) ==>
      && (ok <==> TreeNodes(t) <= 255 && TreeProps(t) <= 255 && TokenStands(blob, NodeEnd(structAt, t), 9))
      && (ok ==> bootCpu == cpu && SameTree(blob, RootOf(blob).nodes, t))
  {
    forall structAt: nat, stringsAt: nat, cpu: nat, t: Tree | Flattens(blob, structAt, stringsAt, cpu, t)
      ensures Accepted(blob) <==>
        TreeNodes(t) <= 255 && TreeProps(t) <= 255 && TokenStands(blob, NodeEnd(structAt, t), 9)
      ensures RootOf(blob).Parsed? && SameTree(blob, RootOf(blob).nodes, t) && WordAt(blob, 28) == cpu
    {
      FlattenedTreeIsAccepted(blob, structAt, stringsAt, cpu, t);
    }
    bootCpu, root := WordAt(blob, 28), 0;
    parser := new Parser(blob, StringsBlock(blob), StructBlock(blob));
    if WordAt(blob, 0) != DEVICE_TREE_MAGIC {
      return false, bootCpu, root, parser;
    }
    if WordAt(blob, 20) != DEVICE_TREE_VERSION && WordAt(blob, 24) != DEVICE_TREE_VERSION {
      return false, bootCpu, root, parser;
    }
    var r := parser.NodeParse();
    if r == Panic || r == Crash {
      return false, bootCpu, root, parser;
    }
    if WordAt(blob, parser.pointer) != END {
      return false, bootCpu, root, parser;
    }
    if r == Null {
      return false, bootCpu, root, parser;
    }
    ok, root := true, r.index;
  }

  // ---------------------------------------------------------------- searching

  /**
   The names on the way from these siblings down to the node with index `q`, its own name
   included, are those of the path from `depth` on. Indices are in document order.
   */
  predicate LeadsTo(b: Blob, ns: Nodes, p: nat, q: nat, path: seq<seq<Byte>>, depth: nat) {
    match ns
    case NoNode => false
    case Node(nameAt, _, child, next) =>
      if q == p then depth + 1 == |path| && StringAt(b, nameAt) == path[depth]
      else if p < q <= p + Count(child) then
        depth + 1 < |path| && StringAt(b, nameAt) == path[depth] && LeadsTo(b, child, p + 1, q, path, depth + 1)
      else LeadsTo(b, next, p + 1 + Count(child), q, path, depth)
  }

  lemma {:induction false} LeadsInside(b: Blob, ns: Nodes, p: nat, q: nat, path: seq<seq<Byte>>, depth: nat)
    requires LeadsTo(b, ns, p, q, path, depth)
    ensures p <= q < p + Count(ns)
  {
    if q != p && !(p < q <= p + Count(ns.child)) {
      LeadsInside(b, ns.next, p + 1 + Count(ns.child), q, path, depth);
    }
  }

  /** The first node in document order that the path leads to; none if and only if there is no such node. */
  ghost predicate IsFirst(b: Blob, ns: Nodes, p: nat, path: seq<seq<Byte>>, depth: nat, found: Option<nat>) {
    match found
    case None => forall q: nat :: !LeadsTo(b, ns, p, q, path, depth)
    case Some(f) => LeadsTo(b, ns, p, f, path, depth) && forall q: nat :: LeadsTo(b, ns, p, q, path, depth) ==> f <= q
  }

  /**
   DeviceTreeNode_find_child_recursive, for paths of any length: the depth is an 8-bit number,
   but it cannot wrap around, because a node lies no deeper than its place in the pool.
   `ns` is the list of siblings that starts at `node`.
   */
  method FindChild(parser: Parser, node: nat, path: seq<seq<Byte>>, depth: nat, ghost ns: Nodes, ghost r: nat)
    returns (found: Option<nat>)
    requires ns.Node? && NodesHold(parser.nodes, parser.props, ns, node, r) && depth < |path|
    requires depth <= node && |parser.nodes| == NUM_DEVICE_TREE_NODES
    ensures IsFirst(parser.blob, ns, node, path, depth, found)
    decreases ns
  {
    var item := parser.nodes[node];
    if StringAt(parser.blob, item.nameAt) == path[depth] {
      if depth + 1 == |path| {
        OwnNameMatches(parser.blob, ns, node, path, depth);
        return Some(node);
      }
      if item.child != None {
        assert NodesHold(parser.nodes, parser.props, ns.child, node + 1, r + PropCount(ns.properties));
        assert node + 1 < NUM_DEVICE_TREE_NODES;
        found := FindChild(parser, item.child.value, path, (depth + 1) % 256, ns.child, r + PropCount(ns.properties));
        if found != None {
          FoundInChild(parser.blob, ns, node, path, depth, found.value);
          return;
        }
      }
    }
    NotInChild(parser.blob, ns, node, path, depth);
    if item.next != None {
      found := FindChild(parser, item.next.value, path, depth, ns.next,
                         r + PropCount(ns.properties) + AllProps(ns.child));
    } else {
      found := None;
    }
    FoundInNext(parser.blob, ns, node, path, depth, found);
  }

  /** DeviceTreeNode_find_child on the root of a parsed tree. */
  method FindFromRoot(parser: Parser, root: nat, path: seq<seq<Byte>>) returns (found: Option<nat>)
    requires Accepted(parser.blob) && root == 0 && parser.Holds(RootOf(parser.blob).nodes, 0, 0) && path != []
    ensures IsFirst(parser.blob, RootOf(parser.blob).nodes, 0, path, 0, found)
  {
    found := FindChild(parser, root, path, 0, RootOf(parser.blob).nodes, 0);
  }

  lemma OwnNameMatches(b: Blob, ns: Nodes, p: nat, path: seq<seq<Byte>>, depth: nat)
    requires ns.Node? && depth + 1 == |path| && StringAt(b, ns.nameAt) == path[depth]
    ensures IsFirst(b, ns, p, path, depth, Some(p))
  {
    forall q: nat | LeadsTo(b, ns, p, q, path, depth)
      ensures p <= q
    {
      LeadsInside(b, ns, p, q, path, depth);
    }
  }

  lemma FoundInChild(b: Blob, ns: Nodes, p: nat, path: seq<seq<Byte>>, depth: nat, f: nat)
    requires ns.Node? && depth + 1 < |path| && StringAt(b, ns.nameAt) == path[depth]
    requires IsFirst(b, ns.child, p + 1, path, depth + 1, Some(f))
    ensures IsFirst(b, ns, p, path, depth, Some(f))
  {
    LeadsInside(b, ns.child, p + 1, f, path, depth + 1);
    forall q: nat | LeadsTo(b, ns, p, q, path, depth)
      ensures f <= q
    {
      LeadsInside(b, ns, p, q, path, depth);
      if p < q <= p + Count(ns.child) {
        assert LeadsTo(b, ns.child, p + 1, q, path, depth + 1);
      }
    }
  }

  /** The first of the siblings is not where the path leads, and no node inside it is. */
  lemma NotInChild(b: Blob, ns: Nodes, p: nat, path: seq<seq<Byte>>, depth: nat)
    requires ns.Node? && depth < |path|
    requires StringAt(b, ns.nameAt) == path[depth] ==>
      depth + 1 < |path| && IsFirst(b, ns.child, p + 1, path, depth + 1, None)
    ensures forall q: nat :: p <= q <= p + Count(ns.child) ==> !LeadsTo(b, ns, p, q, path, depth)
  {
    forall q: nat | p <= q <= p + Count(ns.child)
      ensures !LeadsTo(b, ns, p, q, path, depth)
    {
    }
  }

  lemma FoundInNext(b: Blob, ns: Nodes, p: nat, path: seq<seq<Byte>>, depth: nat, found: Option<nat>)
    requires ns.Node? && IsFirst(b, ns.next, p + 1 + Count(ns.child), path, depth, found)
    requires forall q: nat :: p <= q <= p + Count(ns.child) ==> !LeadsTo(b, ns, p, q, path, depth)
    ensures IsFirst(b, ns, p, path, depth, found)
  {
    var n := p + 1 + Count(ns.child);
    forall q: nat
      ensures LeadsTo(b, ns, p, q, path, depth) <==> LeadsTo(b, ns.next, n, q, path, depth)
    {
      if LeadsTo(b, ns, p, q, path, depth) {
        LeadsInside(b, ns, p, q, path, depth);
      }
      if LeadsTo(b, ns.next, n, q, path, depth) {
        LeadsInside(b, ns.next, n, q, path, depth);
      }
    }
  }
}
