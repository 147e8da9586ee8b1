/** The devicetree parser as it runs: a pointer into the blob, and two pools whose items it links. */
module DeviceTree {
  import opened Prelude
  import opened DeviceTreeBlob

  const NUM_DEVICE_TREE_PROPERTIES: nat := 1024
  const NUM_DEVICE_TREE_NODES: nat := 256

  /** Pointers to items are indices into their pool. */
  datatype PropItem = PropItem(nameAt: nat, valueAt: nat, len: nat, next: Option<nat>)

  datatype NodeItem = NodeItem(nameAt: nat, properties: Option<nat>, child: Option<nat>, next: Option<nat>)

  const BLANK_PROP: PropItem := PropItem(0, 0, 0, None)
  const BLANK_NODE: NodeItem := NodeItem(0, None, None, None)

  /** What a parsing function returns, a kernel panic, or a write through the NULL of an exhausted pool. */
  datatype Outcome = Null | At(index: nat) | Panic | Crash

  // ---------------------------------------------------------------- lists in the pools

  function PropCount(ps: Props): nat {
    if ps.NoProp? then 0 else 1 + PropCount(ps.next)
  }

  /** The nodes in the lists, and the properties of all of them. */
  function Count(ns: Nodes): nat {
    match ns
    case NoNode => 0
    case Node(_, _, child, next) => 1 + Count(child) + Count(next)
  }

  function AllProps(ns: Nodes): nat {
    match ns
    case NoNode => 0
    case Node(_, properties, child, next) => PropCount(properties) + AllProps(child) + AllProps(next)
  }

  function Link(exists': bool, index: nat): Option<nat> {
    if exists' then Some(index) else None
  }

  /** The items from index `r` on are this list of properties. */
  predicate PropsHold(props: seq<PropItem>, ps: Props, r: nat) {
    match ps
    case NoProp => true
    case Prop(nameAt, valueAt, len, next) =>
      && r < |props| && props[r] == PropItem(nameAt, valueAt, len, Link(next.Prop?, r + 1))
      && PropsHold(props, next, r + 1)
  }

  /**
   The items from index `p` on are these lists of nodes, in document order: a node, its
   children with all that is inside them, its next sibling.
   */
  predicate NodesHold(nodes: seq<NodeItem>, props: seq<PropItem>, ns: Nodes, p: nat, r: nat) {
    match ns
    case NoNode => true
    case Node(nameAt, properties, child, next) =>
      var q := p + 1 + Count(child);
      && p < |nodes|
      && nodes[p] == NodeItem(nameAt, Link(properties.Prop?, r), Link(child.Node?, p + 1), Link(next.Node?, q))
      && PropsHold(props, properties, r)
      && NodesHold(nodes, props, child, p + 1, r + PropCount(properties))
      && NodesHold(nodes, props, next, q, r + PropCount(properties) + AllProps(child))
  }

  predicate SamePropItems(a: seq<PropItem>, b: seq<PropItem>, lo: nat, hi: nat) {
    |a| == |b| && forall i :: lo <= i < hi && i < |a| ==> b[i] == a[i]
  }

  predicate SameNodeItems(a: seq<NodeItem>, b: seq<NodeItem>, lo: nat, hi: nat) {
    |a| == |b| && forall i :: lo <= i < hi && i < |a| ==> b[i] == a[i]
  }

  lemma {:induction false} PropsStay(a: seq<PropItem>, b: seq<PropItem>, ps: Props, r: nat)
    requires PropsHold(a, ps, r) && SamePropItems(a, b, r, r + PropCount(ps))
    ensures PropsHold(b, ps, r)
  {
    if ps.Prop? {
      PropsStay(a, b, ps.next, r + 1);
    }
  }

  lemma {:induction false} NodesStay(a: seq<NodeItem>, b: seq<NodeItem>, c: seq<PropItem>, d: seq<PropItem>,
                                     ns: Nodes, p: nat, r: nat)
    requires NodesHold(a, c, ns, p, r)
    requires SameNodeItems(a, b, p, p + Count(ns)) && SamePropItems(c, d, r, r + AllProps(ns))
    ensures NodesHold(b, d, ns, p, r)
  {
    if ns.Node? {
      var s := r + PropCount(ns.properties);
      PropsStay(c, d, ns.properties, r);
      NodesStay(a, b, c, d, ns.child, p + 1, s);
      NodesStay(a, b, c, d, ns.next, p + 1 + Count(ns.child), s + AllProps(ns.child));
    }
  }

  // ---------------------------------------------------------------- appending to a list

  function AppendProps(a: Props, b: Props): Props {
    if a.NoProp? then b else a.(next := AppendProps(a.next, b))
  }

  function AppendNodes(a: Nodes, b: Nodes): Nodes {
    if a.NoNode? then b else a.(next := AppendNodes(a.next, b))
  }

  lemma {:induction false} AppendPropsMore(a: Props, b: Props, c: Props)
    ensures AppendProps(a, AppendProps(b, c)) == AppendProps(AppendProps(a, b), c)
    ensures PropCount(AppendProps(a, b)) == PropCount(a) + PropCount(b)
    ensures AppendProps(a, NoProp) == a
  {
    if a.Prop? {
      AppendPropsMore(a.next, b, c);
    }
  }

  lemma {:induction false} AppendNodesMore(a: Nodes, b: Nodes, c: Nodes)
    ensures AppendNodes(a, AppendNodes(b, c)) == AppendNodes(AppendNodes(a, b), c)
    ensures Count(AppendNodes(a, b)) == Count(a) + Count(b)
    ensures AllProps(AppendNodes(a, b)) == AllProps(a) + AllProps(b)
    ensures AppendNodes(a, NoNode) == a
  {
    if a.Node? {
      AppendNodesMore(a.next, b, c);
    }
  }

  /** The index of the last of the siblings that start at index `p`. */
  function LastNode(ns: Nodes, p: nat): nat {
    if ns.NoNode? || ns.next.NoNode? then p else LastNode(ns.next, p + 1 + Count(ns.child))
  }

  lemma {:induction false} LastInRange(nodes: seq<NodeItem>, props: seq<PropItem>, ns: Nodes, p: nat, r: nat)
    requires ns.Node? && NodesHold(nodes, props, ns, p, r)
    ensures p <= LastNode(ns, p) < p + Count(ns) && LastNode(ns, p) < |nodes|
    ensures nodes[LastNode(ns, p)].next == None
    ensures ns.next.Node? ==> LastNode(ns, p) >= p + 1 + Count(ns.child)
    ensures ns.next.NoNode? ==> LastNode(ns, p) == p
  {
    if ns.next.Node? {
      LastInRange(nodes, props, ns.next, p + 1 + Count(ns.child), r + PropCount(ns.properties) + AllProps(ns.child));
    }
  }

  /** `after` is `nodes` with another link in item `i`. */
  predicate Relinked(nodes: seq<NodeItem>, after: seq<NodeItem>, i: nat, link: Option<nat>) {
    && i < |nodes| == |after| && after[i] == nodes[i].(next := link)
    && forall k :: 0 <= k < |nodes| && k != i ==> after[k] == nodes[k]
  }

  /** Linking a node behind the last sibling appends it to the list. */
  lemma {:induction false} LinkedBehind(nodes: seq<NodeItem>, after: seq<NodeItem>, props: seq<PropItem>,
                                        done: Nodes, p: nat, r: nat, single: Nodes, c: nat, s: nat)
    requires done.Node? && single.Node? && NodesHold(nodes, props, done, p, r)
    requires c == p + Count(done) && s == r + AllProps(done) && NodesHold(after, props, single, c, s)
    requires Relinked(nodes, after, LastNode(done, p), Some(c))
    ensures NodesHold(after, props, AppendNodes(done, single), p, r)
  {
    var q := p + 1 + Count(done.child);
    var mid := r + PropCount(done.properties);
    LastInRange(nodes, props, done, p, r);
    NodesStay(nodes, after, props, props, done.child, p + 1, mid);
    if done.next.Node? {
      LinkedBehind(nodes, after, props, done.next, q, mid + AllProps(done.child), single, c, s);
    }
  }

  function LastProp(ps: Props, r: nat): nat {
    if ps.NoProp? || ps.next.NoProp? then r else LastProp(ps.next, r + 1)
  }

  predicate RelinkedProp(props: seq<PropItem>, after: seq<PropItem>, i: nat, link: Option<nat>) {
    && i < |props| == |after| && after[i] == props[i].(next := link)
    && forall k :: 0 <= k < |props| && k != i ==> after[k] == props[k]
  }

  lemma {:induction false} LastPropInRange(props: seq<PropItem>, ps: Props, r: nat)
    requires ps.Prop? && PropsHold(props, ps, r)
    ensures r <= LastProp(ps, r) < r + PropCount(ps) && LastProp(ps, r) < |props|
    ensures props[LastProp(ps, r)].next == None
  {
    if ps.next.Prop? {
      LastPropInRange(props, ps.next, r + 1);
    }
  }

  lemma {:induction false} LinkedPropBehind(props: seq<PropItem>, after: seq<PropItem>, done: Props, r: nat,
                                            single: Props, c: nat)
    requires done.Prop? && single.Prop? && PropsHold(props, done, r)
    requires c == r + PropCount(done) && PropsHold(after, single, c)
    requires RelinkedProp(props, after, LastProp(done, r), Some(c))
    ensures PropsHold(after, AppendProps(done, single), r)
  {
    LastPropInRange(props, done, r);
    if done.next.Prop? {
      LinkedPropBehind(props, after, done.next, r + 1, single, c);
    }
  }

  // ---------------------------------------------------------------- the parser

  class Parser {
    const blob: Blob
    /** Offset of the strings block. */
    const strings: nat
    var pointer: nat
    var nodes: seq<NodeItem>
    var nodesNext: nat
    var props: seq<PropItem>
    var propsNext: nat

    /** Both pools stop one short of the smaller size: the property pool is checked against the size of the other. */
    ghost predicate Valid()
      reads this
    {
      && |nodes| == NUM_DEVICE_TREE_NODES && |props| == NUM_DEVICE_TREE_PROPERTIES
      && nodesNext <= NUM_DEVICE_TREE_NODES - 1 && propsNext <= NUM_DEVICE_TREE_NODES - 1
      && (forall i :: nodesNext <= i < |nodes| ==> nodes[i] == BLANK_NODE)
      && (forall i :: propsNext <= i < |props| ==> props[i] == BLANK_PROP)
    }

    constructor (blob: Blob, strings: nat, start: nat)
      ensures Valid() && nodesNext == 0 && propsNext == 0
      ensures this.blob == blob && this.strings == strings && pointer == start
    {
      this.blob := blob;
      this.strings := strings;
      pointer := start;
      nodes := seq(NUM_DEVICE_TREE_NODES, _ => BLANK_NODE);
      nodesNext := 0;
      props := seq(NUM_DEVICE_TREE_PROPERTIES, _ => BLANK_PROP);
      propsNext := 0;
    }

    /** skip_nops. */
    method SkipNopTokens()
      modifies `pointer
      ensures pointer == SkipNops(blob, old(pointer))
    {
      while WordAt(blob, pointer) == NOP
        invariant SkipNops(blob, pointer) == SkipNops(blob, old(pointer))
        decreases |blob| - pointer
      {
        pointer := pointer + 4;
      }
    }

    /** parse_node_name. */
    method ParseNodeName() returns (name: nat)
      modifies `pointer
      ensures name == old(pointer) && pointer == AlignUp(StringEnd(blob, old(pointer)) + 1)
    {
      name := pointer;
      var end := pointer;
      while end < |blob| && blob[end] != 0
        invariant StringEnd(blob, end) == StringEnd(blob, pointer)
        decreases |blob| - end
      {
        end := end + 1;
      }
      end := end + 1;
      pointer := AlignUp(end);
    }

    /** DeviceTreeProperty_parse. */
    method PropertyParse() returns (r: Outcome)
      requires Valid()
      modifies `pointer, `props, `propsNext
      ensures Valid()
      ensures var q := SkipNops(blob, old(pointer));
        if WordAt(blob, q) != PROP then
          r == Null && pointer == q && props == old(props) && propsNext == old(propsNext)
        else if old(propsNext) == NUM_DEVICE_TREE_NODES - 1 then r == Crash
        else
          && r == At(old(propsNext)) && propsNext == old(propsNext) + 1
          && props == old(props)[old(propsNext) :=
               PropItem(strings + WordAt(blob, q + 8), q + 12, WordAt(blob, q + 4), None)]
          && pointer == AlignUp(q + 12 + WordAt(blob, q + 4))
    {
      SkipNopTokens();
      if WordAt(blob, pointer) != PROP {
        return Null;
      }
      pointer := pointer + 4;
      if propsNext >= NUM_DEVICE_TREE_NODES - 1 {
        return Crash;
      }
      var parsed := propsNext;
      propsNext := propsNext + 1;
      var raw := pointer;
      pointer := pointer + 8;
      props := props[parsed := props[parsed].(nameAt := strings + WordAt(blob, raw + 4))];
      props := props[parsed := props[parsed].(valueAt := pointer, len := WordAt(blob, raw))];
      pointer := pointer + props[parsed].len;
      pointer := AlignUp(pointer);
      r := At(parsed);
    }

    /** add_linked on the properties of a node: walks to the end of the list and links the property there. */
    method AddProp(node: nat, prop: nat, ghost done: Props, ghost first: nat, ghost single: Props)
      requires Valid() && node < |nodes| && nodes[node].properties == Link(done.Prop?, first)
      requires PropsHold(props, done, first) && single.Prop? && single.next.NoProp? && PropsHold(props, single, prop)
      requires prop == first + PropCount(done) && prop < propsNext
      modifies `nodes, `props
      ensures |nodes| == |old(nodes)| && |props| == |old(props)|
      ensures PropsHold(props, AppendProps(done, single), first)
      ensures nodes[node] == old(nodes)[node].(properties := Some(first))
      ensures forall i :: 0 <= i < |nodes| && i != node ==> nodes[i] == old(nodes)[i]
      ensures forall i :: 0 <= i < |props| && !(first <= i < prop) ==> props[i] == old(props)[i]
    {
      if nodes[node].properties == None {
        nodes := nodes[node := nodes[node].(properties := Some(prop))];
        return;
      }
      var at := nodes[node].properties.value;
      ghost var rest := done;
      while props[at].next != None
        invariant rest.Prop? && PropsHold(props, rest, at) && LastProp(rest, at) == LastProp(done, first)
        decreases rest
      {
        at := props[at].next.value;
        rest := rest.next;
      }
      LastPropInRange(props, done, first);
      ghost var before := props;
      props := props[at := props[at].(next := Some(prop))];
      PropsStay(before, props, single, prop);
      LinkedPropBehind(before, props, done, first, single, prop);
    }

    /** add_linked on the children of a node. */
    method AddChild(node: nat, child: nat, ghost done: Nodes, ghost first: nat, ghost r: nat, ghost single: Nodes)
      requires node < first && child == first + Count(done) && child < |nodes|
      requires nodes[node].child == Link(done.Node?, first)
      requires NodesHold(nodes, props, done, first, r) && single.Node? && single.next.NoNode?
      requires NodesHold(nodes, props, single, child, r + AllProps(done))
      modifies `nodes
      ensures |nodes| == |old(nodes)| && NodesHold(nodes, props, AppendNodes(done, single), first, r)
      ensures nodes[node] == old(nodes)[node].(child := Some(first))
      ensures forall i :: 0 <= i < |nodes| && i != node && !(first <= i < child) ==> nodes[i] == old(nodes)[i]
    {
      ghost var before := nodes;
      if nodes[node].child == None {
        nodes := nodes[node := nodes[node].(child := Some(child))];
        NodesStay(before, nodes, props, props, single, child, r + AllProps(done));
        return;
      }
      var at := nodes[node].child.value;
      ghost var rest := done;
      ghost var s: nat := r;
      while nodes[at].next != None
        invariant rest.Node? && NodesHold(nodes, props, rest, at, s) && LastNode(rest, at) == LastNode(done, first)
        decreases rest
      {
        at := nodes[at].next.value;
        s := s + PropCount(rest.properties) + AllProps(rest.child);
        rest := rest.next;
      }
      LastInRange(nodes, props, done, first, r);
      nodes := nodes[at := nodes[at].(next := Some(child))];
      NodesStay(before, nodes, props, props, single, child, r + AllProps(done));
      LinkedBehind(before, nodes, props, done, first, r, single, child, r + AllProps(done));
    }

    /** The properties in `done` were taken from the pool from item `first` on and linked to the node. */
    ghost predicate Collected(node: nat, first: nat, done: Props, items: seq<NodeItem>, before: seq<PropItem>)
      reads this
    {
      && Valid() && node < |items| && propsNext == first + PropCount(done) && PropsHold(props, done, first)
      && nodes == items[node := items[node].(properties := Link(done.Prop?, first))]
      && SamePropItems(before, props, 0, first)
    }

    /** One more property, if there is one. */
    method CollectProperty(node: nat, ghost first: nat, ghost done: Props, ghost items: seq<NodeItem>,
                           ghost before: seq<PropItem>)
      returns (r: Outcome, ghost collected: Props)
      requires node < nodesNext && Collected(node, first, done, items, before)
      modifies `pointer, `nodes, `props, `propsNext
      ensures r != Panic
      ensures var s := ParseProps(blob, strings, old(pointer));
        && (r == Null ==> s == PropsResult(NoProp, pointer) && collected == done)
        && (r == Crash ==> s.props.Prop? && first + PropCount(done) == NUM_DEVICE_TREE_NODES - 1)
        && (r.At? ==>
              && s.props.Prop? && Left(blob, pointer) < Left(blob, old(pointer))
              && collected == AppendProps(done, s.props.(next := NoProp))
              && ParseProps(blob, strings, pointer) == PropsResult(s.props.next, s.at))
      ensures r != Crash ==> Collected(node, first, collected, items, before)
    {
      hide BigEndian, NodesHold, Count, AllProps, StringEnd;
      collected := done;
      ghost var s := ParseProps(blob, strings, pointer);
      SkipTwice(blob, pointer);
      SkipNopTokens();
      ghost var earlier := props;
      r := PropertyParse();
      if r.At? {
        ghost var single := s.props.(next := NoProp);
        PropsStay(earlier, props, done, first);
        AppendPropsMore(done, single, NoProp);
        AddProp(node, r.index, done, first, single);
        collected := AppendProps(done, single);
      }
    }

    /** The loop of DeviceTreeNode_parse over the properties of a node. */
    method PropertiesParse(node: nat) returns (crashed: bool)
      requires Valid() && node < nodesNext && nodes[node].properties == None
      modifies `pointer, `nodes, `props, `propsNext
      ensures var s := ParseProps(blob, strings, old(pointer));
        && (crashed <==> old(propsNext) + PropCount(s.props) > NUM_DEVICE_TREE_NODES - 1)
        && (!crashed ==> pointer == s.at && Collected(node, old(propsNext), s.props, old(nodes), old(props)))
    {
      ghost var whole, first := ParseProps(blob, strings, pointer), propsNext;
      ghost var done := NoProp;
      while true
        invariant Collected(node, first, done, old(nodes), old(props))
        invariant AppendProps(done, ParseProps(blob, strings, pointer).props) == whole.props
        invariant ParseProps(blob, strings, pointer).at == whole.at
        decreases Left(blob, pointer)
      {
        ghost var rest := ParseProps(blob, strings, pointer).props;
        AppendPropsMore(done, rest, NoProp);
        if rest.Prop? {
          AppendPropsMore(done, rest.(next := NoProp), rest.next);
        }
        var r;
        r, done := CollectProperty(node, first, done, old(nodes), old(props));
        if r == Null {
          return false;
        }
        if r == Crash {
          return true;
        }
      }
    }

    /** The list of children fits into what is left of the pools. */
    ghost predicate Fits(ns: Nodes, p: nat, r: nat) {
      p + Count(ns) <= NUM_DEVICE_TREE_NODES - 1 && r + AllProps(ns) <= NUM_DEVICE_TREE_NODES - 1
    }

    /** From items `p` and `r` on, the pools hold these nodes and nothing behind them. */
    ghost predicate Holds(ns: Nodes, p: nat, r: nat)
      reads this
    {
      Valid() && nodesNext == p + Count(ns) && propsNext == r + AllProps(ns) && NodesHold(nodes, props, ns, p, r)
    }

    /** The nodes in `done` were taken from the pools from items `p` and `r` on and linked to the node as children. */
    ghost predicate Adopted(node: nat, p: nat, r: nat, done: Nodes, items: seq<NodeItem>, before: seq<PropItem>)
      reads this
    {
      && Holds(done, p, r) && node < p && node < |items| && SameNodeItems(items, nodes, 0, node)
      && nodes[node] == items[node].(child := Link(done.Node?, p))
      && SamePropItems(before, props, 0, r)
    }

    /** One more child, if there is one. */
    method AdoptChild(node: nat, ghost s: NodesResult, ghost p: nat, ghost r0: nat, ghost done: Nodes,
                      ghost items: seq<NodeItem>, ghost before: seq<PropItem>)
      returns (r: Outcome, ghost adopted: Nodes)
      requires s == ParseNode(blob, strings, pointer) && Adopted(node, p, r0, done, items, before)
      modifies `pointer, `nodes, `nodesNext, `props, `propsNext
      ensures r == Null ==> s == Parsed(NoNode, pointer) && adopted == done
      ensures r.At? ==> s.Parsed? && s.nodes.Node? && pointer == s.at && adopted == AppendNodes(done, s.nodes)
      ensures r == Panic ==> s.Unclosed?
      ensures r == Crash ==> s.Parsed? ==> !Fits(s.nodes, p + Count(done), r0 + AllProps(done))
      ensures r.At? || r == Null ==> Adopted(node, p, r0, adopted, items, before)
      decreases Left(blob, pointer), 1
    {
      hide NodesHold, PropsHold, ParseNodes;
      adopted := done;
      ParsesAfterSkip(blob, strings, pointer);
      SkipNopTokens();
      ghost var earlier, properties := nodes, props;
      r := NodeParse();
      if r.At? {
        assert NodeDone(r, s, p + Count(done), r0 + AllProps(done), earlier, properties);
        NodesStay(earlier, nodes, properties, props, done, p, r0);
        LinkChild(node, r.index, p, r0, done, s.nodes, items, before);
        adopted := AppendNodes(done, s.nodes);
      }
    }

    /** Links a child that was parsed behind the others. */
    method LinkChild(node: nat, child: nat, ghost p: nat, ghost r0: nat, ghost done: Nodes, ghost single: Nodes,
                     ghost items: seq<NodeItem>, ghost before: seq<PropItem>)
      requires node < p && node < |items| && child == p + Count(done) && single.Node? && single.next.NoNode?
      requires Holds(single, child, r0 + AllProps(done)) && NodesHold(nodes, props, done, p, r0)
      requires SameNodeItems(items, nodes, 0, node) && nodes[node] == items[node].(child := Link(done.Node?, p))
      requires SamePropItems(before, props, 0, r0)
      modifies `nodes
      ensures Adopted(node, p, r0, AppendNodes(done, single), items, before)
    {
      AppendNodesMore(done, single, NoNode);
      AddChild(node, child, done, p, r0, single);
    }

    lemma NoneAdopted(node: nat)
      requires Valid() && node + 1 == nodesNext && nodes[node].child == None
      ensures Adopted(node, node + 1, propsNext, NoNode, nodes, props)
    {
    }

    /** The loop of DeviceTreeNode_parse over the children of a node. */
    method ChildrenParse(node: nat) returns (r: Outcome)
      requires Valid() && node + 1 == nodesNext && nodes[node].child == None
      modifies `pointer, `nodes, `nodesNext, `props, `propsNext
      ensures !r.At?
      ensures var s := ParseNodes(blob, strings, old(pointer));
        && (r == Null ==>
              && s.Parsed? && pointer == s.at
              && Adopted(node, node + 1, old(propsNext), s.nodes, old(nodes), old(props)))
        && (r == Panic ==> s.Unclosed?)
        && (r == Crash ==> s.Parsed? ==> !Fits(s.nodes, node + 1, old(propsNext)))
      decreases Left(blob, pointer), 2
    {
      NoneAdopted(node);
      hide Parser.Adopted, Parser.Holds, NodesHold, ParseNodes, ParseNode, Continued, Count, AllProps, WordAt;
      ghost var whole := ParseNodes(blob, strings, pointer);
      ghost var here := whole;
      ghost var p, r0 := node + 1, propsNext;
      ghost var done := NoNode;
      NothingBefore(whole);
      while true
        invariant Adopted(node, p, r0, done, old(nodes), old(props))
        invariant here == ParseNodes(blob, strings, pointer) && whole == Continued(done, here)
        invariant Left(blob, pointer) <= Left(blob, old(pointer))
        decreases Left(blob, pointer)
      {
        ghost var first, rest := OneMore(blob, strings, pointer, done, here, whole);
        r, done := AdoptChild(node, first, p, r0, done, old(nodes), old(props));
        if !r.At? {
          return;
        }
        here := rest;
      }
    }

    /** What DeviceTreeNode_parse has done when the result on the blob is `s`. */
    ghost predicate NodeDone(r: Outcome, s: NodesResult, p: nat, r0: nat, items: seq<NodeItem>, before: seq<PropItem>)
      reads this
    {
      match r
      case At(index) =>
        && s.Parsed? && s.nodes.Node? && pointer == s.at && index == p && Holds(s.nodes, p, r0)
        && SameNodeItems(items, nodes, 0, p) && SamePropItems(before, props, 0, r0)
      case Null =>
        && s == Parsed(NoNode, pointer) && Valid()
        && nodes == items && props == before && nodesNext == p && propsNext == r0
      case Panic => s.Unclosed?
      case Crash => s.Parsed? ==> !Fits(s.nodes, p, r0)
    }

    /**
     DeviceTreeNode_parse. A node that is parsed takes the next items of the two pools, in
     document order, and nothing in the pools before them changes. A well-formed node fails
     to be parsed if and only if the pools do not have room for it.
     */
    method NodeParse() returns (r: Outcome)
      requires Valid()
      modifies `pointer, `nodes, `nodesNext, `props, `propsNext
      ensures NodeDone(r, ParseNode(blob, strings, old(pointer)), old(nodesNext), old(propsNext), old(nodes),
        old(props))
      decreases Left(blob, pointer), 0
    {
      ghost var q, inside := NodeParts(blob, strings, pointer);
      r := OpenNode(q, inside);
      if r.At? {
        r := FinishNode(r.index, q, inside, old(propsNext), old(nodes), old(props));
      }
    }

    /** DeviceTreeNode_parse from the children on. */
    method FinishNode(parsed: nat, ghost q: nat, ghost inside: PropsResult, ghost first: nat,
                      ghost items: seq<NodeItem>, ghost before: seq<PropItem>) returns (r: Outcome)
      requires Opened(parsed, q + 4, inside.props, first, items, before) && pointer == inside.at
      modifies `pointer, `nodes, `nodesNext, `props, `propsNext
      ensures r != Null
      ensures var children := ParseNodes(blob, strings, inside.at);
        var whole := if children.Unclosed? || WordAt(blob, SkipNops(blob, children.at)) != END_NODE then Unclosed
                     else Parsed(Node(q + 4, inside.props, children.nodes, NoNode), SkipNops(blob, children.at) + 4);
        NodeDone(r, whole, parsed, first, items, before)
      decreases Left(blob, pointer), 3
    {
      hide NodesHold, PropsHold, ParseNodes, ParseNode, ParseProps;
      ghost var properties := props;
      r := ChildrenParse(parsed);
      if r != Null {
        return;
      }
      PropsStay(properties, props, inside.props, first);
      SkipNopTokens();
      if WordAt(blob, pointer) != END_NODE {
        return Panic;
      }
      pointer := pointer + 4;
      r := At(parsed);
      NodeHeld(nodes, props, q + 4, inside.props, ParseNodes(blob, strings, inside.at).nodes, parsed, first);
    }

    /** The item of a node that was opened: its name and its properties, but no children yet. */
    ghost predicate Opened(node: nat, name: nat, ps: Props, first: nat, items: seq<NodeItem>, before: seq<PropItem>)
      reads this
    {
      && Valid() && nodesNext == node + 1 && propsNext == first + PropCount(ps)
      && nodes[node] == NodeItem(name, Link(ps.Prop?, first), None, None) && PropsHold(props, ps, first)
      && SameNodeItems(items, nodes, 0, node) && SamePropItems(before, props, 0, first)
    }

    /** DeviceTreeNode_parse up to the children: BEGIN_NODE, the name, the properties. */
    method OpenNode(ghost q: nat, ghost inside: PropsResult) returns (r: Outcome)
      requires Valid() && q == SkipNops(blob, pointer)
      requires inside == ParseProps(blob, strings, AlignUp(StringEnd(blob, q + 4) + 1))
      modifies `pointer, `nodes, `nodesNext, `props, `propsNext
      ensures r != Panic && (r == Null <==> WordAt(blob, q) != BEGIN_NODE)
      ensures r == Crash ==>
        || old(nodesNext) == NUM_DEVICE_TREE_NODES - 1
        || old(propsNext) + PropCount(inside.props) > NUM_DEVICE_TREE_NODES - 1
      ensures r.At? ==>
        && r.index == old(nodesNext) && pointer == inside.at
        && Opened(r.index, q + 4, inside.props, old(propsNext), old(nodes), old(props))
      ensures r == Null ==>
        && pointer == q && nodes == old(nodes) && props == old(props)
        && nodesNext == old(nodesNext) && propsNext == old(propsNext)
    {
      hide ParseProps, PropsHold, StringEnd;
      SkipNopTokens();
      if WordAt(blob, pointer) != BEGIN_NODE {
        return Null;
      }
      pointer := pointer + 4;
      if nodesNext >= NUM_DEVICE_TREE_NODES - 1 {
        return Crash;
      }
      var parsed := nodesNext;
      nodesNext := nodesNext + 1;
      var name := ParseNodeName();
      nodes := nodes[parsed := nodes[parsed].(nameAt := name)];
      var crashed := PropertiesParse(parsed);
      if crashed {
        return Crash;
      }
      r := At(parsed);
    }
  }

  lemma NodeHeld(nodes: seq<NodeItem>, props: seq<PropItem>, nameAt: nat, ps: Props, child: Nodes, p: nat, r: nat)
    requires p < |nodes| && nodes[p] == NodeItem(nameAt, Link(ps.Prop?, r), Link(child.Node?, p + 1), None)
    requires PropsHold(props, ps, r) && NodesHold(nodes, props, child, p + 1, r + PropCount(ps))
    ensures NodesHold(nodes, props, Node(nameAt, ps, child, NoNode), p, r)
    ensures Count(Node(nameAt, ps, child, NoNode)) == 1 + Count(child)
    ensures AllProps(Node(nameAt, ps, child, NoNode)) == PropCount(ps) + AllProps(child)
  {
  }

  /** The parts of a node, and what they make of it. */
  lemma NodeParts(b: Blob, strings: nat, p: nat) returns (q: nat, inside: PropsResult)
    ensures q == SkipNops(b, p)
    ensures inside == ParseProps(b, strings, AlignUp(StringEnd(b, q + 4) + 1))
    ensures WordAt(b, q) != BEGIN_NODE ==> ParseNode(b, strings, p) == Parsed(NoNode, q)
    ensures WordAt(b, q) == BEGIN_NODE ==> Left(b, inside.at) < Left(b, p)
    ensures var children := ParseNodes(b, strings, inside.at);
      WordAt(b, q) == BEGIN_NODE ==>
        ParseNode(b, strings, p) ==
        if children.Unclosed? || WordAt(b, SkipNops(b, children.at)) != END_NODE then Unclosed
        else Parsed(Node(q + 4, inside.props, children.nodes, NoNode), SkipNops(b, children.at) + 4)
  {
    q := SkipNops(b, p);
    inside := ParseProps(b, strings, AlignUp(StringEnd(b, q + 4) + 1));
  }

  lemma NothingBefore(r: NodesResult)
    ensures Continued(NoNode, r) == r
  {
  }

  /** Parsing the next of the siblings, and then the rest. */
  lemma OneMore(b: Blob, strings: nat, p: nat, done: Nodes, here: NodesResult, whole: NodesResult)
    returns (first: NodesResult, rest: NodesResult)
    requires here == ParseNodes(b, strings, p) && whole == Continued(done, here)
    ensures first == ParseNode(b, strings, p)
    ensures first.Unclosed? ==> whole.Unclosed?
    ensures first.Parsed? && first.nodes.NoNode? ==> whole == Parsed(done, first.at)
    ensures first.Parsed? && first.nodes.Node? ==>
      && rest == ParseNodes(b, strings, first.at) && whole == Continued(AppendNodes(done, first.nodes), rest)
      && Left(b, first.at) < Left(b, p)
    ensures first.Parsed? && whole.Parsed? ==>
      Count(whole.nodes) >= Count(done) + Count(first.nodes) &&
        AllProps(whole.nodes) >= AllProps(done) + AllProps(first.nodes)
  {
    first, rest := ParseNode(b, strings, p), Unclosed;
    if first.Parsed? {
      AppendNodesMore(done, first.nodes, NoNode);
      rest := ParseNodes(b, strings, first.at);
      if first.nodes.Node? && rest.Parsed? {
        AppendNodesMore(done, first.nodes, rest.nodes);
        AppendNodesMore(AppendNodes(done, first.nodes), rest.nodes, NoNode);
      }
    }
  }

  /** What parsing yields when the nodes in `done` came before. */
  function Continued(done: Nodes, r: NodesResult): NodesResult {
    match r
    case Unclosed => Unclosed
    case Parsed(nodes, at) => Parsed(AppendNodes(done, nodes), at)
  }
}
