/**
  Parser events, YAML documents and the reference measures.

  A document is a tree of nodes that may carry tags and anchors and may be an
  alias of an earlier anchor (section 3.2.2.2 of YAML 1.2.2).  `Expand` replaces
  every alias by the subtree it stands for; `Nodes`, `Depth` and `ByteSize` measure
  the expanded tree.
 */
module YamlEvents {
  import opened Common

  /** The `size_of` values that the byte estimate is built from, and `usize::MAX`. */
  datatype Layout = Layout(value: nat, vec: nat, mapping: nat, word: nat, usizeMax: nat) {
    // The container sizes are compile-time constants of the program, so their sums fit.
    predicate Valid() {
      0 < value && 0 < word && value + vec <= usizeMax && value + mapping <= usizeMax
    }
  }

  datatype Limits = Limits(maxDepth: nat, maxNodes: nat, maxBytes: nat)

  datatype Config = Config(layout: Layout, limits: Limits) {
    // The limits are stored in `usize` fields.
    predicate Valid() {
      layout.Valid() && limits.maxDepth <= layout.usizeMax
      && limits.maxNodes <= layout.usizeMax && limits.maxBytes <= layout.usizeMax
    }
  }

  datatype Tag = Tag(handle: Bytes, suffix: Bytes)

  datatype Kind = Sequence | Mapping

  datatype Event =
    | StreamStart
    | StreamEnd
    | DocumentStart
    | DocumentEnd
    | ScalarEvent(value: Bytes, anchor: nat, tag: Option<Tag>)
    | AliasEvent(target: nat)
    | ContainerStart(kind: Kind, anchor: nat, tag: Option<Tag>)
    | ContainerEnd(kind: Kind)
    | Nothing

  /** Anchor 0 means "no anchor". */
  datatype Node =
    | Scalar(value: Bytes, tag: Option<Tag>, anchor: nat)
    | Alias(target: nat)
    | Container(kind: Kind, tag: Option<Tag>, anchor: nat, items: seq<Node>)

  /** A mapping lists its keys and values alternately. */
  predicate WellFormed(n: Node)
    decreases n, 1
  {
    n.Container? ==> WellFormedAll(n.items) && (n.kind == Mapping ==> |n.items| % 2 == 0)
  }

  predicate WellFormedAll(ns: seq<Node>)
    decreases ns, 0
  {
    ns == [] || (WellFormedAll(ns[..|ns| - 1]) && WellFormed(ns[|ns| - 1]))
  }

  /** Serialization of a node to events. */
  function Events(n: Node): seq<Event>
    decreases n, 1
  {
    match n
    case Scalar(v, tag, anchor) => [ScalarEvent(v, anchor, tag)]
    case Alias(target) => [AliasEvent(target)]
    case Container(kind, tag, anchor, items) =>
      [ContainerStart(kind, anchor, tag)] + EventsAll(items) + [ContainerEnd(kind)]
  }

  function EventsAll(ns: seq<Node>): seq<Event>
    decreases ns, 0
  {
    if ns == [] then [] else EventsAll(ns[..|ns| - 1]) + Events(ns[|ns| - 1])
  }

  /** A document with its aliases replaced. */
  datatype Tree =
    | Leaf(value: Bytes, tag: Option<Tag>)
    | Branch(kind: Kind, tag: Option<Tag>, children: seq<Tree>)

  /** What an anchor means while a document is read: nothing finished yet, or a tree. */
  datatype Binding = Pending | Bound(tree: Tree)

  type Env = map<nat, Binding>

  function Bind(env: Env, anchor: nat, b: Binding): Env {
    if anchor == 0 then env else env[anchor := b]
  }

  /** Alias expansion in reading order; None when an alias names no finished anchor. */
  function Expand(n: Node, env: Env): Option<(Tree, Env)>
    decreases n, 1
  {
    match n
    case Scalar(v, tag, anchor) => Some((Leaf(v, tag), Bind(env, anchor, Bound(Leaf(v, tag)))))
    case Alias(target) =>
      if target in env && env[target].Bound? then Some((env[target].tree, env)) else None
    case Container(kind, tag, anchor, items) =>
      var (children, after) :- ExpandAll(items, Bind(env, anchor, Pending));
      Some((Branch(kind, tag, children), Bind(after, anchor, Bound(Branch(kind, tag, children)))))
  }

  function ExpandAll(ns: seq<Node>, env: Env): (r: Option<(seq<Tree>, Env)>)
    ensures r.Some? ==> |r.value.0| == |ns|
    decreases ns, 0
  {
    if ns == [] then Some(([], env))
    else
      var (trees, mid) :- ExpandAll(ns[..|ns| - 1], env);
      var (tree, after) :- Expand(ns[|ns| - 1], mid);
      Some((trees + [tree], after))
  }

  function TagLevel(tag: Option<Tag>): nat { if tag.Some? then 1 else 0 }

  /** A tagged value is one more node wrapped around the value. */
  function Nodes(t: Tree): nat
    decreases t, 1
  {
    1 + TagLevel(t.tag) + (if t.Branch? then NodesAll(t.children) else 0)
  }

  function NodesAll(ts: seq<Tree>): nat
    decreases ts, 0
  {
    if ts == [] then 0 else NodesAll(ts[..|ts| - 1]) + Nodes(ts[|ts| - 1])
  }

  /** Longest path from the root, counting a tag as one level. */
  function Depth(t: Tree): nat
    decreases t, 1
  {
    TagLevel(t.tag) + (if t.Branch? then DepthBelow(t.children) else 0)
  }

  function DepthBelow(ts: seq<Tree>): nat
    decreases ts, 0
  {
    if ts == [] then 0 else Max(DepthBelow(ts[..|ts| - 1]), Depth(ts[|ts| - 1]) + 1)
  }

  function TagBytes(l: Layout, tag: Option<Tag>): nat {
    match tag
    case None => 0
    case Some(t) => |t.handle| + |t.suffix| + l.value
  }

  function ContainerBytes(l: Layout, kind: Kind): nat {
    if kind == Sequence then l.value + l.vec else l.value + l.mapping
  }

  /** Storage charged for putting one more child, at position `index`, into a container. */
  function EdgeBytes(l: Layout, kind: Kind, index: nat): nat {
    if kind == Sequence then l.value
    else if index % 2 == 1 then 2 * l.value + 2 * l.word
    else 0
  }

  function ByteSize(l: Layout, t: Tree): nat
    decreases t, 1
  {
    TagBytes(l, t.tag) + (match t
                          case Leaf(v, _) => l.value + |v|
                          case Branch(kind, _, ts) => ContainerBytes(l, kind) + ByteSizeAll(l, kind, ts))
  }

  function ByteSizeAll(l: Layout, kind: Kind, ts: seq<Tree>): nat
    decreases ts, 0
  {
    if ts == [] then 0
    else ByteSizeAll(l, kind, ts[..|ts| - 1]) + ByteSize(l, ts[|ts| - 1]) + EdgeBytes(l, kind, |ts| - 1)
  }

  /** The budget as a statement about the expanded tree. */
  predicate Fits(c: Config, t: Tree) {
    Nodes(t) <= c.limits.maxNodes && Depth(t) <= c.limits.maxDepth
    && ByteSize(c.layout, t) <= c.limits.maxBytes
  }

  function Repeat(e: Event, k: nat): seq<Event> {
    if k == 0 then [] else Repeat(e, k - 1) + [e]
  }

  /** One document with root `n`, between any stream markers. */
  function DocumentEvents(starts: nat, n: Node, ends: nat): seq<Event> {
    Repeat(StreamStart, starts) + [DocumentStart] + Events(n) + [DocumentEnd] + Repeat(StreamEnd, ends)
  }

  /** The measures and the serialization grow by one child at a time. */
  lemma MeasuresSnoc(l: Layout, kind: Kind, ts: seq<Tree>, t: Tree)
    ensures NodesAll(ts + [t]) == NodesAll(ts) + Nodes(t)
    ensures DepthBelow(ts + [t]) == Max(DepthBelow(ts), Depth(t) + 1)
    ensures ByteSizeAll(l, kind, ts + [t]) == ByteSizeAll(l, kind, ts) + ByteSize(l, t) + EdgeBytes(l, kind, |ts|)
  {
    assert (ts + [t])[..|ts|] == ts;
  }

  lemma EventsSnoc(ns: seq<Node>, n: Node)
    ensures EventsAll(ns + [n]) == EventsAll(ns) + Events(n)
    ensures WellFormedAll(ns + [n]) <==> WellFormedAll(ns) && WellFormed(n)
  {
    assert (ns + [n])[..|ns|] == ns;
  }
}
