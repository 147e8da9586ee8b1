/**
 The structure block of a flattened devicetree (section 5.4 of the Devicetree Specification
 v0.4) as bytes, and what parsing it yields: first-child/next-sibling lists of addresses.
 */
module DeviceTreeBlob {
  type Byte = n: nat | n < 256

  /** The bytes from the header on; the header is aligned, so offsets are aligned as addresses are. */
  type Blob = seq<Byte>

  const BEGIN_NODE: nat := 1
  const END_NODE: nat := 2
  const PROP: nat := 3
  const NOP: nat := 4
  const END: nat := 9

  /** The big-endian number in `n` bytes. */
  function BigEndian(b: Blob, p: nat, n: nat): nat
    requires p + n <= |b|
  {
    if n == 0 then 0 else BigEndian(b, p, n - 1) * 0x100 + b[p + n - 1]
  }

  /** A word. What lies behind the blob, where no valid tree leads, reads as 0. */
  function WordAt(b: Blob, p: nat): nat {
    if p + 4 <= |b| then BigEndian(b, p, 4) else 0
  }

  /** The next multiple of 4. */
  function AlignUp(p: nat): (q: nat)
    ensures p <= q
  {
    (p + 3) / 4 * 4
  }

  /** The index of the NUL that ends the string at `p`. */
  function StringEnd(b: Blob, p: nat): (end: nat)
    ensures p <= end
    decreases |b| - p
  {
    if p < |b| && b[p] != 0 then StringEnd(b, p + 1) else p
  }

  /** The string at an address. */
  function StringAt(b: Blob, p: nat): seq<Byte>
    decreases |b| - p
  {
    if p < |b| && b[p] != 0 then [b[p]] + StringAt(b, p + 1) else []
  }

  function BytesAt(b: Blob, p: nat, len: nat): seq<Byte> {
    if p + len <= |b| then b[p..p + len] else []
  }

  function SkipNops(b: Blob, p: nat): (q: nat)
    ensures p <= q && WordAt(b, q) != NOP
    decreases |b| - p
  {
    if WordAt(b, p) == NOP then SkipNops(b, p + 4) else p
  }

  /** How far it is from `p` to the end of the blob. */
  function Left(b: Blob, p: nat): nat {
    if p <= |b| then |b| - p else 0
  }

  // ---------------------------------------------------------------- parsing

  /** The properties of a node, linked by `next`. */
  datatype Props = NoProp | Prop(nameAt: nat, valueAt: nat, len: nat, next: Props)

  /** Nodes that are linked by `next`, each with the list of its children. */
  datatype Nodes = NoNode | Node(nameAt: nat, properties: Props, child: Nodes, next: Nodes)

  datatype PropsResult = PropsResult(props: Props, at: nat)

  /** `at` is where parsing stopped; a node without its end is a kernel panic. */
  datatype NodesResult = Parsed(nodes: Nodes, at: nat) | Unclosed

  /** All properties from `p` on; names are offsets from `strings`. */
  function ParseProps(b: Blob, strings: nat, p: nat): (r: PropsResult)
    ensures p <= r.at
    decreases Left(b, p)
  {
    var q := SkipNops(b, p);
    if WordAt(b, q) != PROP then PropsResult(NoProp, q)
    else
      var len := WordAt(b, q + 4);
      var rest := ParseProps(b, strings, AlignUp(q + 12 + len));
      PropsResult(Prop(strings + WordAt(b, q + 8), q + 12, len, rest.props), rest.at)
  }

  /** The next node, if there is one. */
  function ParseNode(b: Blob, strings: nat, p: nat): (r: NodesResult)
    ensures r.Parsed? ==> p <= r.at && (r.nodes.Node? ==> p < r.at && p < |b| && r.nodes.next == NoNode)
    decreases Left(b, p), 1
  {
    var q := SkipNops(b, p);
    if WordAt(b, q) != BEGIN_NODE then Parsed(NoNode, q) else ParseInside(b, strings, q)
  }

  /** The node whose BEGIN_NODE is at `q`, with all that is inside it. */
  function ParseInside(b: Blob, strings: nat, q: nat): (r: NodesResult)
    requires WordAt(b, q) == BEGIN_NODE
    ensures r.Parsed? ==> q < r.at && r.nodes.Node? && r.nodes.next == NoNode
    decreases Left(b, q), 0
  {
    var inside := ParseProps(b, strings, AlignUp(StringEnd(b, q + 4) + 1));
    match ParseNodes(b, strings, inside.at)
    case Unclosed => Unclosed
    case Parsed(children, at) =>
      var end := SkipNops(b, at);
      if WordAt(b, end) != END_NODE then Unclosed
      else Parsed(Node(q + 4, inside.props, children, NoNode), end + 4)
  }

  /** The next node and its siblings. */
  function ParseNodes(b: Blob, strings: nat, p: nat): (r: NodesResult)
    ensures r.Parsed? ==> p <= r.at
    decreases Left(b, p), 2
  {
    match ParseNode(b, strings, p)
    case Unclosed => Unclosed
    case Parsed(NoNode, at) => Parsed(NoNode, at)
    case Parsed(first, at) =>
      match ParseNodes(b, strings, at)
      case Unclosed => Unclosed
      case Parsed(rest, end) => Parsed(first.(next := rest), end)
  }

  // ---------------------------------------------------------------- trees, and how they are flattened

  /** The properties of a node, each with the number of NOP tokens before it. */
  datatype PropList = NoMore | More(nops: nat, name: seq<Byte>, value: seq<Byte>, next: PropList)

  /** A node, the NOP tokens before it and before its end, its children, and its next sibling. */
  datatype Tree = Nothing | Tree(nops: nat, name: seq<Byte>, properties: PropList, child: Tree, endNops: nat,
    next: Tree)

  /** A token: a word, its most significant byte first. */
  predicate TokenStands(b: Blob, p: nat, token: Byte)
    ensures token != 0 ==> (TokenStands(b, p, token) <==> WordAt(b, p) == token)
  {
    assert p + 4 <= |b| ==> Number32(b, p) == WordAt(b, p);
    p + 4 <= |b| && b[p] == 0 && b[p + 1] == 0 && b[p + 2] == 0 && b[p + 3] == token
  }

  /** A number of 32 bits, its most significant byte first. */
  function Number32(b: Blob, p: nat): (n: nat)
    requires p + 4 <= |b|
    ensures n == WordAt(b, p)
  {
    FourBytes(b, p);
    b[p] as nat * 0x100_0000 + b[p + 1] as nat * 0x1_0000 + b[p + 2] as nat * 0x100 + b[p + 3]
  }

  lemma FourBytes(b: Blob, p: nat)
    requires p + 4 <= |b|
    ensures WordAt(b, p) ==
            b[p] as nat * 0x100_0000 + b[p + 1] as nat * 0x1_0000 + b[p + 2] as nat * 0x100 + b[p + 3]
  {
    assert BigEndian(b, p, 0) == 0 && BigEndian(b, p, 1) == b[p];
    assert BigEndian(b, p, 2) == b[p] as nat * 0x100 + b[p + 1];
    assert BigEndian(b, p, 3) == b[p] as nat * 0x1_0000 + b[p + 1] as nat * 0x100 + b[p + 2];
  }

  /** The next address that is a multiple of 4. */
  function Rounded(p: nat): (q: nat)
    ensures q == AlignUp(p)
  {
    if p % 4 == 0 then p else p + 4 - p % 4
  }

  /** `n` NOP tokens stand at `p`. */
  predicate NopsStand(b: Blob, p: nat, n: nat)
    decreases n
  {
    n == 0 || (TokenStands(b, p, 4) && NopsStand(b, p + 4, n - 1))
  }

  /** The string and its NUL stand at `p`. */
  predicate StringStands(b: Blob, p: nat, s: seq<Byte>)
    decreases |s|
  {
    p < |b| && if s == [] then b[p] == 0 else b[p] == s[0] != 0 && StringStands(b, p + 1, s[1..])
  }

  /** A property as it is flattened: token, length, offset of the name in the strings block, value. */
  predicate PropStands(b: Blob, strings: nat, q: nat, name: seq<Byte>, value: seq<Byte>) {
    && q + 12 + |value| <= |b|
    && TokenStands(b, q, 3) && Number32(b, q + 4) == |value| && StringStands(b, strings + Number32(b, q + 8), name)
    && b[q + 12..q + 12 + |value|] == value
  }

  function AfterProp(q: nat, value: seq<Byte>): nat {
    Rounded(q + 12 + |value|)
  }

  function PropsEnd(p: nat, l: PropList): nat
    decreases l
  {
    match l
    case NoMore => p
    case More(nops, _, value, next) => PropsEnd(AfterProp(p + 4 * nops, value), next)
  }

  /** The properties as section 5.4.2 flattens them. */
  predicate PropsStand(b: Blob, strings: nat, p: nat, l: PropList)
    decreases l
  {
    match l
    case NoMore => true
    case More(nops, name, value, next) =>
      && NopsStand(b, p, nops) && PropStands(b, strings, p + 4 * nops, name, value)
      && PropsStand(b, strings, AfterProp(p + 4 * nops, value), next)
  }

  /** The token that opens a node, and its name. */
  predicate OpeningStands(b: Blob, q: nat, name: seq<Byte>) {
    TokenStands(b, q, 1) && StringStands(b, q + 4, name)
  }

  function ContentsAt(p: nat, t: Tree): nat
    requires t.Tree?
  {
    Rounded(p + 4 * t.nops + 4 + |t.name| + 1)
  }

  /** Where the children of a flattened node start. */
  function ChildrenAt(p: nat, t: Tree): nat
    requires t.Tree?
  {
    PropsEnd(ContentsAt(p, t), t.properties)
  }

  /** Where a flattened node ends, just behind its END_NODE. */
  function NodeEnd(p: nat, t: Tree): nat
    requires t.Tree?
    decreases t, 0
  {
    TreesEnd(ChildrenAt(p, t), t.child) + 4 * t.endNops + 4
  }

  /** Where the flattened siblings end. */
  function TreesEnd(p: nat, t: Tree): nat
    decreases t, 1
  {
    if t.Nothing? then p else TreesEnd(NodeEnd(p, t), t.next)
  }

  /** A node as section 5.4.2 flattens it. */
  predicate NodeStands(b: Blob, strings: nat, p: nat, t: Tree)
    requires t.Tree?
    decreases t, 0
  {
    var end := TreesEnd(ChildrenAt(p, t), t.child);
    && NopsStand(b, p, t.nops) && OpeningStands(b, p + 4 * t.nops, t.name)
    && PropsStand(b, strings, ContentsAt(p, t), t.properties)
    && TreesStand(b, strings, ChildrenAt(p, t), t.child)
    && NopsStand(b, end, t.endNops) && TokenStands(b, end + 4 * t.endNops, 2)
  }

  /** The siblings one after the other. */
  predicate TreesStand(b: Blob, strings: nat, p: nat, t: Tree)
    decreases t, 1
  {
    t.Tree? ==> NodeStands(b, strings, p, t) && TreesStand(b, strings, NodeEnd(p, t), t.next)
  }

  // ---------------------------------------------------------------- parsing undoes flattening

  /** The list of addresses names exactly these properties, in this order. */
  predicate SameProps(b: Blob, ps: Props, l: PropList) {
    match l
    case NoMore => ps == NoProp
    case More(_, name, value, next) =>
      && ps.Prop? && StringAt(b, ps.nameAt) == name && BytesAt(b, ps.valueAt, ps.len) == value
      && SameProps(b, ps.next, next)
  }

  /** The node has this name, these properties and these children. */
  predicate SameNode(b: Blob, ns: Nodes, t: Tree)
    requires t.Tree?
    decreases t, 0
  {
    && ns.Node? && StringAt(b, ns.nameAt) == t.name
    && SameProps(b, ns.properties, t.properties) && SameTree(b, ns.child, t.child)
  }

  /** The lists of addresses describe exactly these siblings, in this order. */
  predicate SameTree(b: Blob, ns: Nodes, t: Tree)
    decreases t, 1
  {
    if t.Nothing? then ns == NoNode else SameNode(b, ns, t) && SameTree(b, ns.next, t.next)
  }

  /** Any number of NOPs, and then another token. */
  lemma {:induction false} TokenAfterNops(b: Blob, p: nat, n: nat)
    requires NopsStand(b, p, n) && WordAt(b, p + 4 * n) != NOP
    ensures SkipNops(b, p) == p + 4 * n
    decreases n
  {
    if n > 0 {
      TokenAfterNops(b, p + 4, n - 1);
    }
  }

  lemma {:induction false} NameIsRead(b: Blob, p: nat, s: seq<Byte>)
    requires StringStands(b, p, s)
    ensures StringEnd(b, p) == p + |s| && StringAt(b, p) == s
    decreases |s|
  {
    if s != [] {
      NameIsRead(b, p + 1, s[1..]);
    }
  }

  lemma ParsesOneProp(b: Blob, strings: nat, p: nat, q: nat, name: seq<Byte>, value: seq<Byte>, rest: PropsResult)
    requires q == SkipNops(b, p) && PropStands(b, strings, q, name, value)
    requires rest == ParseProps(b, strings, AfterProp(q, value))
    ensures ParseProps(b, strings, p) ==
      PropsResult(Prop(strings + WordAt(b, q + 8), q + 12, |value|, rest.props), rest.at)
    ensures StringAt(b, strings + WordAt(b, q + 8)) == name && BytesAt(b, q + 12, |value|) == value
  {
    NameIsRead(b, strings + WordAt(b, q + 8), name);
  }

  lemma {:induction false} ParsesProps(b: Blob, strings: nat, p: nat, l: PropList)
    requires PropsStand(b, strings, p, l) && WordAt(b, SkipNops(b, PropsEnd(p, l))) != PROP
    ensures SameProps(b, ParseProps(b, strings, p).props, l)
    ensures ParseProps(b, strings, p).at == SkipNops(b, PropsEnd(p, l))
    decreases l
  {
    if l.More? {
      var q := p + 4 * l.nops;
      TokenAfterNops(b, p, l.nops);
      ParsesProps(b, strings, AfterProp(q, l.value), l.next);
      ParsesOneProp(b, strings, p, q, l.name, l.value, ParseProps(b, strings, AfterProp(q, l.value)));
    }
  }

  lemma SkipTwice(b: Blob, p: nat)
    ensures SkipNops(b, SkipNops(b, p)) == SkipNops(b, p)
  {
  }

  /** What starts with skipping NOPs does not mind if they were skipped before. */
  lemma ParsesAfterSkip(b: Blob, strings: nat, p: nat)
    ensures ParseNode(b, strings, SkipNops(b, p)) == ParseNode(b, strings, p)
    ensures ParseNodes(b, strings, SkipNops(b, p)) == ParseNodes(b, strings, p)
  {
    SkipTwice(b, p);
  }

  /** What follows the properties of a tree, or its children, is no property. */
  lemma NoPropNext(b: Blob, strings: nat, p: nat, t: Tree, endNops: nat)
    requires TreesStand(b, strings, p, t)
    requires NopsStand(b, TreesEnd(p, t), endNops) && WordAt(b, TreesEnd(p, t) + 4 * endNops) == END_NODE
    ensures WordAt(b, SkipNops(b, p)) != PROP
  {
    hide PropsStand, StringStands, BigEndian;
    if t.Tree? {
      assert NopsStand(b, p, t.nops) && OpeningStands(b, p + 4 * t.nops, t.name);
      TokenAfterNops(b, p, t.nops);
    } else {
      TokenAfterNops(b, p, endNops);
    }
  }

  /**
   Parsing undoes flattening: from the flattened form of any list of siblings, with NOP
   tokens wherever the specification allows them, the parser builds exactly these siblings
   with their properties and children in order, and stops just behind them.
   */
  lemma {:induction false} ParsesTrees(b: Blob, strings: nat, p: nat, t: Tree)
    requires TreesStand(b, strings, p, t) && WordAt(b, SkipNops(b, TreesEnd(p, t))) != BEGIN_NODE
    ensures var r := ParseNodes(b, strings, p);
      r.Parsed? && SameTree(b, r.nodes, t) && r.at == SkipNops(b, TreesEnd(p, t))
    decreases t, 3
  {
    if t.Tree? {
      ParsesNode(b, strings, p, t);
      ParsesTrees(b, strings, NodeEnd(p, t), t.next);
    }
  }

  /** A single node; the pointer is left just behind its END_NODE. */
  lemma {:induction false} ParsesNode(b: Blob, strings: nat, p: nat, t: Tree)
    requires t.Tree? && NodeStands(b, strings, p, t)
    ensures ParseNode(b, strings, p).Parsed? && SameNode(b, ParseNode(b, strings, p).nodes, t)
    ensures ParseNode(b, strings, p).at == NodeEnd(p, t)
    decreases t, 2
  {
    var q, contents, end := NodeFacts(b, strings, p, t);
    var inside, children := ParsesContents(b, strings, p, t);
    JoinsNode(b, strings, p, q, contents, inside, children, end);
  }

  lemma NodeFacts(b: Blob, strings: nat, p: nat, t: Tree) returns (q: nat, contents: nat, end: nat)
    requires t.Tree? && NodeStands(b, strings, p, t)
    ensures q == SkipNops(b, p) && WordAt(b, q) == BEGIN_NODE && StringAt(b, q + 4) == t.name
    ensures contents == ContentsAt(p, t) && contents == AlignUp(StringEnd(b, q + 4) + 1)
    ensures end + 4 == NodeEnd(p, t) && WordAt(b, end) == END_NODE
  {
    OpeningIsRead(b, strings, p, t);
    q, contents, end := p + 4 * t.nops, ContentsAt(p, t), NodeEnd(p, t) - 4;
  }

  lemma OpeningIsRead(b: Blob, strings: nat, p: nat, t: Tree)
    requires t.Tree? && NodeStands(b, strings, p, t)
    ensures var q := p + 4 * t.nops;
      && SkipNops(b, p) == q && WordAt(b, q) == BEGIN_NODE && StringAt(b, q + 4) == t.name
      && AlignUp(StringEnd(b, q + 4) + 1) == ContentsAt(p, t)
    ensures WordAt(b, NodeEnd(p, t) - 4) == END_NODE
  {
    TokenAfterNops(b, p, t.nops);
    NameIsRead(b, p + 4 * t.nops + 4, t.name);
  }

  /** The properties and the children of a node, up to its END_NODE. */
  lemma {:induction false} ParsesContents(b: Blob, strings: nat, p: nat, t: Tree)
    returns (inside: PropsResult, children: NodesResult)
    requires t.Tree? && NodeStands(b, strings, p, t)
    ensures inside == ParseProps(b, strings, ContentsAt(p, t)) && children == ParseNodes(b, strings, inside.at)
    ensures SameProps(b, inside.props, t.properties)
    ensures children.Parsed? && SameTree(b, children.nodes, t.child)
    ensures SkipNops(b, children.at) == NodeEnd(p, t) - 4
    decreases t, 1
  {
    var end := TreesEnd(ChildrenAt(p, t), t.child);
    NoPropNext(b, strings, ChildrenAt(p, t), t.child, t.endNops);
    ParsesProps(b, strings, ContentsAt(p, t), t.properties);
    TokenAfterNops(b, end, t.endNops);
    ParsesTrees(b, strings, ChildrenAt(p, t), t.child);
    ParsesAfterSkip(b, strings, ChildrenAt(p, t));
    SkipTwice(b, end);
    inside := ParseProps(b, strings, ContentsAt(p, t));
    children := ParseNodes(b, strings, inside.at);
  }

  lemma {:induction false} JoinsNode(b: Blob, strings: nat, p: nat, q: nat, contents: nat,
                                     inside: PropsResult, children: NodesResult, end: nat)
    requires q == SkipNops(b, p) && WordAt(b, q) == BEGIN_NODE && contents == AlignUp(StringEnd(b, q + 4) + 1)
    requires inside == ParseProps(b, strings, contents)
    requires children == ParseNodes(b, strings, inside.at) && children.Parsed?
    requires end == SkipNops(b, children.at) && WordAt(b, end) == END_NODE
    ensures ParseNode(b, strings, p) == Parsed(Node(q + 4, inside.props, children.nodes, NoNode), end + 4)
  {
  }
}
