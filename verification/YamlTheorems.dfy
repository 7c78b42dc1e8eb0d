/**
  The streaming budget agrees with the measures of the alias-expanded document.

  `Tracks` says that every counter of the budget is the measure of what the builder,
  run beside it on the same events, holds.
 */
module YamlTheorems {
  import opened Common
  import opened YamlEvents
  import opened YamlBudget
  import opened YamlBuilder

  // ----- The budget tracks the builder -----

  function StackNodes(stack: seq<Partial>): nat {
    if stack == [] then 0 else StackNodes(stack[..|stack| - 1]) + Nodes(stack[|stack| - 1].ToTree())
  }

  function StackBytes(l: Layout, stack: seq<Partial>): nat {
    if stack == [] then 0 else StackBytes(l, stack[..|stack| - 1]) + ByteSize(l, stack[|stack| - 1].ToTree())
  }

  function TotalNodes(b: Builder): nat {
    StackNodes(b.stack) + (if b.root.Some? then Nodes(b.root.value.1) else 0)
  }

  function TotalBytes(l: Layout, b: Builder): nat {
    StackBytes(l, b.stack) + (if b.root.Some? then ByteSize(l, b.root.value.1) else 0)
  }

  function Measured(l: Layout, t: Tree): Summary { Summary(Nodes(t), Depth(t), ByteSize(l, t)) }

  /** The frame's summary measures the completed children; its own tag level is still to come. */
  ghost predicate FrameTracks(l: Layout, f: Frame, p: Partial) {
    && f.kind == p.kind && f.anchor == p.anchor && f.tagged == p.tag.Some?
    && |p.items| == |p.trees|
    && f.expectsValue == (p.kind == Mapping && |p.trees| % 2 == 1)
    && f.summary == Summary(Nodes(p.ToTree()), DepthBelow(p.trees), ByteSize(l, p.ToTree()))
  }

  ghost predicate AnchorTracks(l: Layout, a: Anchor, b: Binding) {
    if a.Open? then b.Pending? else b.Bound? && a.summary == Measured(l, b.tree)
  }

  ghost predicate AnchorsTrack(l: Layout, anchors: map<nat, Anchor>, env: Env) {
    && anchors.Keys == env.Keys
    && (forall a :: a in anchors ==> AnchorTracks(l, anchors[a], env[a]))
  }

  ghost predicate FramesTrack(l: Layout, frames: seq<Frame>, stack: seq<Partial>) {
    && |frames| == |stack|
    && (forall i :: 0 <= i < |frames| ==> FrameTracks(l, frames[i], stack[i]))
  }

  ghost predicate PhaseTracks(s: State, b: Builder) {
    && s.documents == (if b.phase == Before then 0 else 1)
    && s.inDocument == (b.phase == Inside)
  }

  /** Counters, frames, anchors and root are the measures of what the builder holds. */
  ghost predicate Tracks(c: Config, s: State, b: Builder) {
    && Shaped(b)
    && PhaseTracks(s, b)
    && FramesTrack(c.layout, s.frames, b.stack)
    && AnchorsTrack(c.layout, s.anchors, b.env)
    && s.root == (if b.root.Some? then Some(Measured(c.layout, b.root.value.1)) else None)
    && s.nodes == TotalNodes(b) && s.bytes == TotalBytes(c.layout, b)
  }

  /** What the budget has checked so far. */
  ghost predicate Checked(c: Config, s: State) {
    && s.nodes <= c.limits.maxNodes && s.bytes <= c.limits.maxBytes
    && (s.root.Some? ==> s.root.value.maxDepth <= c.limits.maxDepth)
  }

  lemma SumsTop(l: Layout, stack: seq<Partial>, p: Partial)
    ensures StackNodes(stack + [p]) == StackNodes(stack) + Nodes(p.ToTree())
    ensures StackBytes(l, stack + [p]) == StackBytes(l, stack) + ByteSize(l, p.ToTree())
  {
    assert (stack + [p])[..|stack|] == stack;
  }

  // ----- Depth of a partly built document -----

  /** Depth that the document has at least, when its open containers are closed as they are. */
  function StackDepth(stack: seq<Partial>): nat {
    if stack == [] then 0
    else TagLevel(stack[0].tag)
         + Max(DepthBelow(stack[0].trees), if |stack| == 1 then 0 else 1 + StackDepth(stack[1..]))
  }

  lemma {:induction false} StackDepthMonotone(pre: seq<Partial>, low: seq<Partial>, high: seq<Partial>)
    requires low != [] && high != [] && StackDepth(low) <= StackDepth(high)
    ensures StackDepth(pre + low) <= StackDepth(pre + high)
    decreases |pre|
  {
    if pre == [] {
      assert pre + low == low && pre + high == high;
    } else {
      StackDepthMonotone(pre[1..], low, high);
      assert (pre + low)[1..] == pre[1..] + low && (pre + high)[1..] == pre[1..] + high;
    }
  }

  lemma {:induction false} StackDepthLength(pre: seq<Partial>, top: seq<Partial>)
    requires top != []
    ensures |pre| + StackDepth(top) <= StackDepth(pre + top)
    decreases |pre|
  {
    if pre == [] {
      assert pre + top == top;
    } else {
      StackDepthLength(pre[1..], top);
      assert (pre + top)[1..] == pre[1..] + top;
    }
  }

  /** Every limit holds for what has been built. */
  ghost predicate Affordable(c: Config, b: Builder) {
    && TotalNodes(b) <= c.limits.maxNodes && TotalBytes(c.layout, b) <= c.limits.maxBytes
    && StackDepth(b.stack) <= c.limits.maxDepth
    && (b.root.Some? ==> Depth(b.root.value.1) <= c.limits.maxDepth)
  }

  lemma PlaceAffordable(c: Config, b: Builder, n: Node, t: Tree)
    requires Place(b, n, t).Some? && Affordable(c, Place(b, n, t).value)
    ensures Affordable(c, b)
    ensures TotalNodes(b) + Nodes(t) <= c.limits.maxNodes
    ensures TotalBytes(c.layout, b) + ByteSize(c.layout, t) <= c.limits.maxBytes
    ensures |b.stack| + Depth(t) <= c.limits.maxDepth
  {
    if b.stack != [] {
      PlaceSums(c.layout, b, n, t);
      PlaceDepth(b, n, t);
      hide Nodes, ByteSize, Depth, DepthBelow, StackDepth, TotalNodes, TotalBytes;
    }
  }

  lemma PlaceDepth(b: Builder, n: Node, t: Tree)
    requires b.stack != []
    ensures StackDepth(b.stack) <= StackDepth(Place(b, n, t).value.stack)
    ensures |b.stack| + Depth(t) <= StackDepth(Place(b, n, t).value.stack)
  {
    var top := |b.stack| - 1;
    var pre, p := b.stack[..top], b.stack[top];
    var p' := Extend(p, n, t);
    assert b.stack == pre + [p] && Place(b, n, t).value.stack == pre + [p'];
    MeasuresSnoc(Layout(0, 0, 0, 0, 0), p.kind, p.trees, t);
    hide Place, Depth, DepthBelow;
    StackDepthMonotone(pre, [p], [p']);
    StackDepthLength(pre, [p']);
  }

  lemma OpenDepth(stack: seq<Partial>, p: Partial)
    ensures StackDepth(stack) <= StackDepth(stack + [p]) && |stack| + TagLevel(p.tag) <= StackDepth(stack + [p])
  {
    StackDepthLength(stack, [p]);
    if stack != [] {
      var pre, q := stack[..|stack| - 1], stack[|stack| - 1];
      assert [q, p][1..] == [p];
      StackDepthMonotone(pre, [q], [q, p]);
      assert stack == pre + [q] && stack + [p] == pre + [q, p];
    }
  }

  lemma OpenAffordable(c: Config, b: Builder, kind: Kind, anchor: nat, tag: Option<Tag>)
    requires Affordable(c, Enter(b, kind, anchor, tag))
    ensures Affordable(c, b)
    ensures |b.stack| + TagLevel(tag) <= c.limits.maxDepth
    ensures TotalNodes(b) + 1 + TagLevel(tag) <= c.limits.maxNodes
    ensures TotalBytes(c.layout, b) + ContainerBytes(c.layout, kind) + TagBytes(c.layout, tag) <= c.limits.maxBytes
  {
    var p := Partial(kind, anchor, tag, [], []);
    SumsTop(c.layout, b.stack, p);
    OpenDepth(b.stack, p);
    hide StackDepth, StackNodes, StackBytes;
  }

  /** Closing a container keeps the counted nodes and can only raise bytes and depth. */
  lemma CloseAffordable(c: Config, b: Builder, kind: Kind)
    requires Leave(b, kind).Some? && Affordable(c, Leave(b, kind).value)
    ensures Affordable(c, b)
  {
    hide Nodes, ByteSize, Depth, DepthBelow, StackNodes, StackBytes, StackDepth;
    var p := b.Top();
    PlaceAffordable(c, b.Popped(), p.ToNode(), p.ToTree());
    CloseDepth(b, kind);
    assert b.stack == b.Popped().stack + [p];
    SumsTop(c.layout, b.Popped().stack, p);
    hide Place;
  }

  lemma CloseDepth(b: Builder, kind: Kind)
    requires Leave(b, kind).Some?
    ensures var b' := Leave(b, kind).value;
            StackDepth(b.stack) <= if b'.stack == [] then Depth(b'.root.value.1) else StackDepth(b'.stack)
  {
    var rest := |b.stack| - 1;
    var pre, p := b.stack[..rest], b.stack[rest];
    if pre == [] {
      assert b.stack == [p];
    } else {
      var q := pre[rest - 1];
      var q' := Extend(q, p.ToNode(), p.ToTree());
      assert b.stack == pre[..rest - 1] + [q, p];
      assert Leave(b, kind).value.stack == pre[..rest - 1] + [q'];
      hide Leave;
      MeasuresSnoc(Layout(0, 0, 0, 0, 0), q.kind, q.trees, p.ToTree());
      assert [q, p][1..] == [p];
      hide DepthBelow;
      StackDepthMonotone(pre[..rest - 1], [q, p], [q']);
    }
  }

  lemma BuildAffordable(c: Config, b: Builder, e: Event)
    requires Build(b, e).Some? && Affordable(c, Build(b, e).value)
    ensures Affordable(c, b)
  {
    match e {
      case ScalarEvent(v, anchor, tag) =>
        PlaceAffordable(c, b.(env := Bind(b.env, anchor, Bound(Leaf(v, tag)))), Scalar(v, tag, anchor), Leaf(v, tag));
      case AliasEvent(target) => PlaceAffordable(c, b, Alias(target), b.env[target].tree);
      case ContainerStart(kind, anchor, tag) => OpenAffordable(c, b, kind, anchor, tag);
      case ContainerEnd(kind) => CloseAffordable(c, b, kind);
      case _ =>
    }
  }

  // ----- One event: the budget and the builder move together -----

  /** Storage charged by a frame for its next child. */
  function NextEdge(c: Config, f: Frame): nat {
    if f.kind == Sequence then c.layout.value
    else if f.expectsValue then 2 * c.layout.value + 2 * c.layout.word
    else 0
  }

  /** The checked arithmetic of a frame is plain arithmetic as long as the limits hold. */
  lemma AdoptPlain(c: Config, depth: nat, f: Frame, child: Summary)
    requires c.Valid()
    ensures var r := Adopt(c, depth, f, child);
            r.Ok? ==>
              && r.value.1 == NextEdge(c, f)
              && r.value.0 == Frame(f.kind, f.anchor, f.tagged, if f.kind == Mapping then !f.expectsValue else f.expectsValue,
                                    Summary(f.summary.nodes + child.nodes, Max(f.summary.maxDepth, child.maxDepth + 1),
                                            f.summary.bytes + child.bytes + NextEdge(c, f)))
    ensures f.summary.nodes + child.nodes <= c.limits.maxNodes
            && Max(f.summary.maxDepth, child.maxDepth + 1) <= c.limits.maxDepth
            && f.summary.bytes + child.bytes + NextEdge(c, f) <= c.limits.maxBytes
            ==> Adopt(c, depth, f, child).Ok?
  {
  }

  lemma ExtendMeasures(l: Layout, p: Partial, n: Node, t: Tree)
    ensures var p' := Extend(p, n, t);
            && Nodes(p'.ToTree()) == Nodes(p.ToTree()) + Nodes(t)
            && DepthBelow(p'.trees) == Max(DepthBelow(p.trees), Depth(t) + 1)
            && ByteSize(l, p'.ToTree()) == ByteSize(l, p.ToTree()) + ByteSize(l, t) + EdgeBytes(l, p.kind, |p.trees|)
  {
    MeasuresSnoc(l, p.kind, p.trees, t);
  }

  lemma AdoptTracks(c: Config, depth: nat, f: Frame, p: Partial, n: Node, t: Tree)
    requires c.Valid() && FrameTracks(c.layout, f, p)
    ensures var r := Adopt(c, depth, f, Measured(c.layout, t));
            r.Ok? ==> FrameTracks(c.layout, r.value.0, Extend(p, n, t)) && r.value.1 == EdgeBytes(c.layout, p.kind, |p.trees|)
    ensures var p' := Extend(p, n, t);
            Nodes(p'.ToTree()) <= c.limits.maxNodes && DepthBelow(p'.trees) <= c.limits.maxDepth
            && ByteSize(c.layout, p'.ToTree()) <= c.limits.maxBytes
            ==> Adopt(c, depth, f, Measured(c.layout, t)).Ok?
  {
    hide Adopt, Nodes, ByteSize, DepthBelow;
    AdoptPlain(c, depth, f, Measured(c.layout, t));
    ExtendMeasures(c.layout, p, n, t);
  }

  /** `s` tracks `b`, and a node `t` that is not placed yet has been reserved. */
  ghost predicate Reserved(c: Config, s: State, b: Builder, t: Tree) {
    && Shaped(b) && b.phase == Inside && PhaseTracks(s, b)
    && FramesTrack(c.layout, s.frames, b.stack)
    && AnchorsTrack(c.layout, s.anchors, b.env)
    && s.root == (if b.root.Some? then Some(Measured(c.layout, b.root.value.1)) else None)
    && s.nodes == TotalNodes(b) + Nodes(t) && s.bytes == TotalBytes(c.layout, b) + ByteSize(c.layout, t)
  }

  /** Effect on the sums of placing `t` in the innermost open container. */
  lemma PlaceSums(l: Layout, b: Builder, n: Node, t: Tree)
    requires b.stack != []
    ensures var b' := Place(b, n, t).value;
            var p := b.stack[|b.stack| - 1];
            && TotalNodes(b') == TotalNodes(b) + Nodes(t)
            && TotalBytes(l, b') == TotalBytes(l, b) + ByteSize(l, t) + EdgeBytes(l, p.kind, |p.trees|)
            && Nodes(Extend(p, n, t).ToTree()) <= TotalNodes(b')
            && ByteSize(l, Extend(p, n, t).ToTree()) <= TotalBytes(l, b')
            && DepthBelow(Extend(p, n, t).trees) <= StackDepth(b'.stack)
  {
    var top := |b.stack| - 1;
    var pre, p := b.stack[..top], b.stack[top];
    var p' := Extend(p, n, t);
    assert b.stack == pre + [p] && Place(b, n, t).value.stack == pre + [p'];
    StackDepthLength(pre, [p']);
    hide Nodes, ByteSize, DepthBelow;
    SumsTop(l, pre, p);
    SumsTop(l, pre, p');
    ExtendMeasures(l, p, n, t);
  }

  lemma CompleteTracks(c: Config, s: State, b: Builder, n: Node, t: Tree)
    requires c.Valid() && WellFormed(n) && Reserved(c, s, b, t)
    requires CompleteNode(c, s, Measured(c.layout, t)).Ok?
    ensures Place(b, n, t).Some? && Tracks(c, CompleteNode(c, s, Measured(c.layout, t)).value, Place(b, n, t).value)
  {
    hide Adopt, Nodes, ByteSize, DepthBelow, Depth, WellFormed, FrameTracks, AnchorsTrack, Read, Events, StackDepth;
    assert b.phase == Inside && Place(b, n, t).Some?;
    PlaceReads(b, n, t);
    if b.stack != [] {
      var top := |b.stack| - 1;
      AdoptTracks(c, |s.frames|, s.frames[top], b.stack[top], n, t);
      PlaceSums(c.layout, b, n, t);
    }
    hide Shaped;
  }

  lemma CompleteAllowed(c: Config, s: State, b: Builder, n: Node, t: Tree)
    requires c.Valid() && Reserved(c, s, b, t)
    requires Place(b, n, t).Some? && Affordable(c, Place(b, n, t).value)
    ensures CompleteNode(c, s, Measured(c.layout, t)).Ok?
  {
    if b.stack != [] {
      var top := |b.stack| - 1;
      AdoptTracks(c, |s.frames|, s.frames[top], b.stack[top], n, t);
      PlaceSums(c.layout, b, n, t);
      hide Adopt, Nodes, ByteSize, DepthBelow, Shaped, FrameTracks, AnchorsTrack, StackDepth, Place;
    }
  }

  lemma CompleteChecked(c: Config, s: State, summary: Summary)
    requires Checked(c, s) && (s.frames == [] ==> summary.maxDepth <= c.limits.maxDepth)
    ensures var r := CompleteNode(c, s, summary); r.Ok? ==> Checked(c, r.value)
  {
  }

  lemma ScalarTracks(c: Config, v: Bytes, tag: Option<Tag>)
    requires c.Valid()
    ensures ScalarSummary(c, v, tag).Ok? ==> ScalarSummary(c, v, tag).value == Measured(c.layout, Leaf(v, tag))
    ensures ByteSize(c.layout, Leaf(v, tag)) <= c.limits.maxBytes ==> ScalarSummary(c, v, tag).Ok?
  {
  }

  /** A node known at once: what the budget accepts has a place and is tracked. */
  lemma AddTracks(c: Config, s: State, b: Builder, n: Node, t: Tree)
    requires c.Valid() && WellFormed(n) && Tracks(c, s, b) && Checked(c, s) && b.phase == Inside
    requires AddNode(c, s, Measured(c.layout, t)).Ok?
    ensures var r := AddNode(c, s, Measured(c.layout, t));
            Place(b, n, t).Some? && Tracks(c, r.value, Place(b, n, t).value) && Checked(c, r.value)
  {
    hide Shaped, CompleteNode, Nodes, ByteSize, Depth, FramesTrack, AnchorsTrack, Place, WellFormed;
    var reserved := s.(nodes := s.nodes + Nodes(t), bytes := s.bytes + ByteSize(c.layout, t));
    CompleteTracks(c, reserved, b, n, t);
    CompleteChecked(c, reserved, Measured(c.layout, t));
  }

  lemma AddAllowed(c: Config, s: State, b: Builder, n: Node, t: Tree)
    requires c.Valid() && Tracks(c, s, b) && b.phase == Inside
    requires Place(b, n, t).Some? && Affordable(c, Place(b, n, t).value)
    ensures AddNode(c, s, Measured(c.layout, t)).Ok?
  {
    hide Shaped, CompleteNode, Nodes, ByteSize, Depth, AnchorsTrack, Place, Affordable, FrameTracks, TotalNodes, TotalBytes;
    var reserved := s.(nodes := s.nodes + Nodes(t), bytes := s.bytes + ByteSize(c.layout, t));
    PlaceAffordable(c, b, n, t);
    assert |s.frames| == |b.stack|;
    hide FramesTrack;
    CompleteAllowed(c, reserved, b, n, t);
  }

  /** Setting an anchor keeps a tracked pair tracked. */
  lemma AnchorTracking(c: Config, s: State, b: Builder, anchor: nat, a: Anchor, binding: Binding)
    requires Tracks(c, s, b) && AnchorTracks(c.layout, a, binding) && b.phase == Inside
    ensures Tracks(c, SetAnchor(s, anchor, a), b.(env := Bind(b.env, anchor, binding)))
  {
    AnchorsBind(c.layout, s, b.env, anchor, a, binding);
    hide FramesTrack, AnchorTracks, AnchorsTrack, WellFormed, WellFormedAll, Bind;
  }

  lemma AnchorsBind(l: Layout, s: State, env: Env, anchor: nat, a: Anchor, binding: Binding)
    requires AnchorsTrack(l, s.anchors, env) && AnchorTracks(l, a, binding)
    ensures AnchorsTrack(l, SetAnchor(s, anchor, a).anchors, Bind(env, anchor, binding))
  {
    hide AnchorTracks;
  }

  /**
    One event.  What the budget accepts, the builder accepts, and the pair stays tracked;
    what the builder accepts within the limits, the budget accepts.
   */
  ghost predicate Step(c: Config, s: State, b: Builder, e: Event) {
    var r, b' := Observe(c, s, e), Build(b, e);
    && (r.Ok? ==> b'.Some? && Tracks(c, r.value, b'.value) && Checked(c, r.value))
    && (b'.Some? && Affordable(c, b'.value) ==> r.Ok?)
  }

  lemma ScalarStep(c: Config, s: State, b: Builder, v: Bytes, anchor: nat, tag: Option<Tag>)
    requires c.Valid() && Tracks(c, s, b) && Checked(c, s)
    ensures Step(c, s, b, ScalarEvent(v, anchor, tag))
  {
    var e, n, t := ScalarEvent(v, anchor, tag), Scalar(v, tag, anchor), Leaf(v, tag);
    var r, b' := Observe(c, s, e), Build(b, e);
    assert PhaseTracks(s, b);
    ScalarTracks(c, v, tag);
    PlaceEnv(b, Bind(b.env, anchor, Bound(t)), n, t);
    var added := AddNode(c, s, Measured(c.layout, t));
    assert WellFormed(n);
    hide AddNode, Tracks, Checked, Affordable, Measured, ByteSize, ScalarSummary, Place, Bind;
    if r.Ok? {
      assert added.Ok? && r.value == SetAnchor(added.value, anchor, Complete(Measured(c.layout, t)));
      AddTracks(c, s, b, n, t);
      AnchorTracking(c, added.value, Place(b, n, t).value, anchor, Complete(Measured(c.layout, t)), Bound(t));
      CheckedAnchor(c, added.value, anchor, Complete(Measured(c.layout, t)));
    }
    if b'.Some? && Affordable(c, b'.value) {
      AffordableEnv(c, Place(b, n, t).value, b'.value);
      AffordableBytes(c, b, n, t);
      AddAllowed(c, s, b, n, t);
    }
  }

  lemma PlaceEnv(b: Builder, env: Env, n: Node, t: Tree)
    ensures var p := Place(b, n, t);
            Place(b.(env := env), n, t) == if p.Some? then Some(p.value.(env := env)) else None
    ensures var p := Place(b, n, t); p.Some? ==> p.value.env == b.env && p.value.phase == b.phase
  {
  }

  lemma CheckedAnchor(c: Config, s: State, anchor: nat, a: Anchor)
    requires Checked(c, s)
    ensures Checked(c, SetAnchor(s, anchor, a))
  {
  }

  lemma AffordableBytes(c: Config, b: Builder, n: Node, t: Tree)
    requires Place(b, n, t).Some? && Affordable(c, Place(b, n, t).value)
    ensures ByteSize(c.layout, t) <= c.limits.maxBytes
  {
    PlaceAffordable(c, b, n, t);
  }

  lemma AffordableEnv(c: Config, b: Builder, b': Builder)
    requires b' == b.(env := b'.env) && Affordable(c, b')
    ensures Affordable(c, b)
  {
  }

  lemma AliasStep(c: Config, s: State, b: Builder, target: nat)
    requires c.Valid() && Tracks(c, s, b) && Checked(c, s)
    ensures Step(c, s, b, AliasEvent(target))
  {
    assert PhaseTracks(s, b) && s.anchors.Keys == b.env.Keys;
    assert target in b.env ==> AnchorTracks(c.layout, s.anchors[target], b.env[target]);
    hide AddNode, Place, Tracks, Checked, Affordable, Measured;
    if b.phase == Inside && target in b.env && b.env[target].Bound? {
      var t := b.env[target].tree;
      assert WellFormed(Alias(target));
      if AddNode(c, s, Measured(c.layout, t)).Ok? {
        AddTracks(c, s, b, Alias(target), t);
      }
      if Place(b, Alias(target), t).Some? && Affordable(c, Place(b, Alias(target), t).value) {
        AddAllowed(c, s, b, Alias(target), t);
      }
    }
  }

  lemma ContainerBytesPlain(c: Config, kind: Kind, tag: Option<Tag>)
    requires c.Valid()
    ensures var r, bytes := CheckedContainerBytes(c, kind, tag), ContainerBytes(c.layout, kind) + TagBytes(c.layout, tag);
            (r.Ok? ==> r.value == bytes) && (bytes <= c.limits.maxBytes ==> r.Ok?)
  {
  }

  /** What starting a container checks and does, without the checked arithmetic. */
  lemma StartPlain(c: Config, s: State, kind: Kind, anchor: nat, tag: Option<Tag>)
    requires c.Valid()
    ensures var r := StartContainer(c, s, kind, anchor, tag);
            var frame := OpenFrame(c, kind, anchor, tag);
            var nodes, bytes := s.nodes + frame.summary.nodes, s.bytes + frame.summary.bytes;
            && (r.Ok? <==> s.inDocument && |s.frames| + TagLevel(tag) <= c.limits.maxDepth
                           && nodes <= c.limits.maxNodes && bytes <= c.limits.maxBytes)
            && (r.Ok? ==>
                  r.value == SetAnchor(s.(nodes := nodes, bytes := bytes, frames := s.frames + [frame]), anchor, Open))
  {
    ContainerBytesPlain(c, kind, tag);
    hide CheckedContainerBytes;
  }

  function OpenFrame(c: Config, kind: Kind, anchor: nat, tag: Option<Tag>): Frame {
    Frame(kind, anchor, tag.Some?, false,
          Summary(1 + TagLevel(tag), 0, ContainerBytes(c.layout, kind) + TagBytes(c.layout, tag)))
  }

  lemma OpenTracks(c: Config, s: State, b: Builder, kind: Kind, anchor: nat, tag: Option<Tag>)
    requires FramesTrack(c.layout, s.frames, b.stack)
    ensures FramesTrack(c.layout, s.frames + [OpenFrame(c, kind, anchor, tag)], Enter(b, kind, anchor, tag).stack)
    ensures TotalNodes(Enter(b, kind, anchor, tag)) == TotalNodes(b) + 1 + TagLevel(tag)
    ensures TotalBytes(c.layout, Enter(b, kind, anchor, tag))
            == TotalBytes(c.layout, b) + ContainerBytes(c.layout, kind) + TagBytes(c.layout, tag)
  {
    var p := Partial(kind, anchor, tag, [], []);
    EmptyMeasures(c, kind, anchor, tag);
    hide FrameTracks, Nodes, ByteSize, OpenFrame;
    FramesPush(c.layout, s.frames, b.stack, OpenFrame(c, kind, anchor, tag), p);
    SumsTop(c.layout, b.stack, p);
    hide StackNodes, StackBytes, FramesTrack;
  }

  lemma EmptyMeasures(c: Config, kind: Kind, anchor: nat, tag: Option<Tag>)
    ensures var p := Partial(kind, anchor, tag, [], []);
            && FrameTracks(c.layout, OpenFrame(c, kind, anchor, tag), p)
            && Nodes(p.ToTree()) == 1 + TagLevel(tag)
            && ByteSize(c.layout, p.ToTree()) == ContainerBytes(c.layout, kind) + TagBytes(c.layout, tag)
  {
  }

  lemma FramesPush(l: Layout, frames: seq<Frame>, stack: seq<Partial>, f: Frame, p: Partial)
    requires FramesTrack(l, frames, stack) && FrameTracks(l, f, p)
    ensures FramesTrack(l, frames + [f], stack + [p])
  {
    hide FrameTracks;
  }

  lemma StartTracks(c: Config, s: State, b: Builder, kind: Kind, anchor: nat, tag: Option<Tag>)
    requires c.Valid() && Tracks(c, s, b) && Checked(c, s) && b.phase == Inside
    requires StartContainer(c, s, kind, anchor, tag).Ok?
    ensures var s' := StartContainer(c, s, kind, anchor, tag).value;
            Tracks(c, s', Enter(b, kind, anchor, tag)) && Checked(c, s')
  {
    StartPlain(c, s, kind, anchor, tag);
    OpenTracks(c, s, b, kind, anchor, tag);
    OpenReads(b, kind, anchor, tag);
    AnchorsBind(c.layout, s, b.env, anchor, Open, Pending);
    hide StartContainer, FramesTrack, AnchorsTrack, AnchorTracks, Shaped, Read, TotalNodes, TotalBytes, Bind;
  }

  lemma StartStep(c: Config, s: State, b: Builder, kind: Kind, anchor: nat, tag: Option<Tag>)
    requires c.Valid() && Tracks(c, s, b) && Checked(c, s)
    ensures Step(c, s, b, ContainerStart(kind, anchor, tag))
  {
    StartPlain(c, s, kind, anchor, tag);
    assert s.inDocument == (b.phase == Inside) && |s.frames| == |b.stack|;
    assert s.nodes == TotalNodes(b) && s.bytes == TotalBytes(c.layout, b);
    hide StartContainer, Tracks, Checked, Affordable, TotalNodes, TotalBytes, Enter;
    if StartContainer(c, s, kind, anchor, tag).Ok? {
      StartTracks(c, s, b, kind, anchor, tag);
    }
    if b.phase == Inside && Affordable(c, Enter(b, kind, anchor, tag)) {
      OpenAffordable(c, b, kind, anchor, tag);
    }
  }

  /** Taking the innermost frame off leaves a state that has its container reserved. */
  lemma PopReserves(c: Config, s: State, b: Builder)
    requires Tracks(c, s, b) && b.phase == Inside && b.stack != []
    requires b.Top().kind == Mapping ==> |b.Top().items| % 2 == 0
    ensures WellFormed(b.Top().ToNode())
    ensures Reserved(c, Popped(c, s, b.Top()), b.Popped(), b.Top().ToTree())
  {
    hide FramesTrack, AnchorsTrack, Shaped, Read, StackNodes, StackBytes, WellFormedAll;
    var p, t, rest := b.Top(), b.Top().ToTree(), |b.stack| - 1;
    PoppedReads(b);
    assert b.stack == b.stack[..rest] + [p];
    SumsTop(c.layout, b.stack[..rest], p);
    FramesPop(c.layout, s.frames, b.stack);
    assert AnchorTracks(c.layout, Complete(Measured(c.layout, t)), Bound(t));
    hide Measured, AnchorTracks, Nodes, ByteSize;
    AnchorsBind(c.layout, s, b.env, p.anchor, Complete(Measured(c.layout, t)), Bound(t));
    hide Bind;
  }

  /** The budget after the frame of `p` is taken off and its anchor completed. */
  function Popped(c: Config, s: State, p: Partial): State
    requires s.frames != []
  {
    SetAnchor(s.(frames := s.frames[..|s.frames| - 1]), p.anchor, Complete(Measured(c.layout, p.ToTree())))
  }

  lemma FramesPop(l: Layout, frames: seq<Frame>, stack: seq<Partial>)
    requires FramesTrack(l, frames, stack) && stack != []
    ensures |frames| == |stack| && FramesTrack(l, frames[..|frames| - 1], stack[..|stack| - 1])
    ensures FrameTracks(l, frames[|frames| - 1], stack[|stack| - 1])
  {
    hide FrameTracks;
  }

  /** What ending a container checks and does, once its frame is known to track `p`. */
  lemma EndPlain(c: Config, s: State, kind: Kind, p: Partial)
    requires c.Valid() && s.inDocument && s.frames != []
    requires FrameTracks(c.layout, s.frames[|s.frames| - 1], p)
    ensures var r, t := EndContainer(c, s, kind), p.ToTree();
            if p.kind == kind && !(kind == Mapping && |p.items| % 2 == 1) && |s.frames| - 1 + Depth(t) <= c.limits.maxDepth
            then r == CompleteNode(c, Popped(c, s, p), Measured(c.layout, t))
            else r.Err?
  {
    FrameMeasures(c.layout, s.frames[|s.frames| - 1], p);
    hide FrameTracks, CompleteNode, Depth, Measured, SetAnchor;
  }

  /** A frame with the level of its tag added is the measure of its container. */
  lemma FrameMeasures(l: Layout, f: Frame, p: Partial)
    requires FrameTracks(l, f, p)
    ensures f.kind == p.kind && f.anchor == p.anchor && f.expectsValue == (p.kind == Mapping && |p.items| % 2 == 1)
    ensures Depth(p.ToTree()) == f.summary.maxDepth + (if f.tagged then 1 else 0)
    ensures f.summary.(maxDepth := Depth(p.ToTree())) == Measured(l, p.ToTree())
  {
    hide Nodes, ByteSize, DepthBelow;
  }

  lemma TrackedFrame(c: Config, s: State, b: Builder)
    requires Tracks(c, s, b) && b.phase == Inside
    ensures s.inDocument && |s.frames| == |b.stack|
    ensures b.stack != [] ==> FrameTracks(c.layout, s.frames[|s.frames| - 1], b.Top())
  {
    hide FrameTracks, Shaped, AnchorsTrack;
  }

  lemma EndTracks(c: Config, s: State, b: Builder, kind: Kind)
    requires c.Valid() && Tracks(c, s, b) && Checked(c, s) && b.phase == Inside
    requires EndContainer(c, s, kind).Ok?
    ensures Leave(b, kind).Some? && Tracks(c, EndContainer(c, s, kind).value, Leave(b, kind).value)
            && Checked(c, EndContainer(c, s, kind).value)
  {
    TrackedFrame(c, s, b);
    assert s.frames != [];
    var p := b.Top();
    EndPlain(c, s, kind, p);
    CheckedAnchor(c, s.(frames := s.frames[..|s.frames| - 1]), p.anchor, Complete(Measured(c.layout, p.ToTree())));
    assert Measured(c.layout, p.ToTree()).maxDepth == Depth(p.ToTree());
    hide EndContainer, CompleteNode, Tracks, Checked, Place, Reserved, Depth, FrameTracks, Measured, SetAnchor;
    PopReserves(c, s, b);
    CompleteTracks(c, Popped(c, s, p), b.Popped(), p.ToNode(), p.ToTree());
    CompleteChecked(c, Popped(c, s, p), Measured(c.layout, p.ToTree()));
  }

  lemma EndAllowed(c: Config, s: State, b: Builder, kind: Kind)
    requires c.Valid() && Tracks(c, s, b) && b.phase == Inside
    requires Leave(b, kind).Some? && Affordable(c, Leave(b, kind).value)
    ensures EndContainer(c, s, kind).Ok?
  {
    TrackedFrame(c, s, b);
    var p := b.Top();
    hide EndContainer, CompleteNode, Tracks, Place, Reserved, Depth, FrameTracks, Measured, SetAnchor, Affordable;
    EndPlain(c, s, kind, p);
    PopReserves(c, s, b);
    PlaceAffordable(c, b.Popped(), p.ToNode(), p.ToTree());
    CompleteAllowed(c, Popped(c, s, p), b.Popped(), p.ToNode(), p.ToTree());
  }

  lemma EndStep(c: Config, s: State, b: Builder, kind: Kind)
    requires c.Valid() && Tracks(c, s, b) && Checked(c, s)
    ensures Step(c, s, b, ContainerEnd(kind))
  {
    assert s.inDocument == (b.phase == Inside);
    assert b.phase != Inside ==> EndContainer(c, s, kind).Err?;
    hide EndContainer, Tracks, Checked, Affordable, Leave;
    if b.phase == Inside {
      if EndContainer(c, s, kind).Ok? {
        EndTracks(c, s, b, kind);
      }
      if Leave(b, kind).Some? && Affordable(c, Leave(b, kind).value) {
        EndAllowed(c, s, b, kind);
      }
    }
  }

  lemma ObserveStep(c: Config, s: State, b: Builder, e: Event)
    requires c.Valid() && Tracks(c, s, b) && Checked(c, s)
    ensures Step(c, s, b, e)
  {
    match e
    case ScalarEvent(v, anchor, tag) => ScalarStep(c, s, b, v, anchor, tag);
    case AliasEvent(target) => AliasStep(c, s, b, target);
    case ContainerStart(kind, anchor, tag) => StartStep(c, s, b, kind, anchor, tag);
    case ContainerEnd(kind) => EndStep(c, s, b, kind);
    case _ =>
  }

  // ----- Whole runs -----

  /**
    After every accepted prefix the counters are the sums over the open frames and the
    finished root, every frame summary is the measure of the children completed so far,
    and the limits hold for what was counted.
   */
  lemma {:induction false} AcceptedPrefixIsMeasured(c: Config, es: seq<Event>)
    requires c.Valid() && ObserveAll(c, Initial, es).Ok?
    ensures BuildAll(Empty, es).Some?
    ensures var s, b := ObserveAll(c, Initial, es).value, BuildAll(Empty, es).value;
            Tracks(c, s, b) && Checked(c, s) && Read(b) == es
    decreases |es|
  {
    if es == [] {
      InitialTracks(c);
    } else {
      var init, last := es[..|es| - 1], es[|es| - 1];
      assert es == init + [last];
      ObserveAllSnoc(c, Initial, init, last);
      BuildAllSnoc(Empty, init, last);
      hide ObserveAll, BuildAll, Observe, Build, Tracks, Checked, Read;
      AcceptedPrefixIsMeasured(c, init);
      AcceptedStep(c, ObserveAll(c, Initial, init).value, BuildAll(Empty, init).value, last);
    }
  }

  lemma InitialTracks(c: Config)
    ensures Tracks(c, Initial, Empty) && Checked(c, Initial) && Read(Empty) == []
  {
  }

  lemma AcceptedStep(c: Config, s: State, b: Builder, e: Event)
    requires c.Valid() && Tracks(c, s, b) && Checked(c, s) && Observe(c, s, e).Ok?
    ensures Build(b, e).Some?
    ensures var s', b' := Observe(c, s, e).value, Build(b, e).value;
            Tracks(c, s', b') && Checked(c, s') && Read(b') == Read(b) + [e]
  {
    assert Shaped(b);
    hide Observe, Build, Tracks, Checked, Read, Shaped, Affordable;
    ObserveStep(c, s, b, e);
    BuildReads(b, e);
  }

  lemma {:induction false} AffordableIsAccepted(c: Config, es: seq<Event>)
    requires c.Valid() && BuildAll(Empty, es).Some? && Affordable(c, BuildAll(Empty, es).value)
    ensures ObserveAll(c, Initial, es).Ok?
    decreases |es|
  {
    hide Observe, Build;
    if es != [] {
      var init, last := es[..|es| - 1], es[|es| - 1];
      BuildAffordable(c, BuildAll(Empty, init).value, last);
      AffordableIsAccepted(c, init);
      AcceptedPrefixIsMeasured(c, init);
      ObserveStep(c, ObserveAll(c, Initial, init).value, BuildAll(Empty, init).value, last);
    }
  }

  lemma {:induction false} BuildStarts(k: nat)
    ensures BuildAll(Empty, Repeat(StreamStart, k)) == Some(Empty.(starts := k))
  {
    if k > 0 {
      BuildStarts(k - 1);
      BuildAllConcat(Empty, Repeat(StreamStart, k - 1), [StreamStart]);
      BuildOne(Empty.(starts := k - 1), StreamStart);
    }
  }

  lemma {:induction false} BuildEnds(b: Builder, k: nat)
    requires b.phase == After && b.ends == 0
    ensures BuildAll(b, Repeat(StreamEnd, k)) == Some(b.(ends := k))
  {
    if k > 0 {
      BuildEnds(b, k - 1);
      BuildAllConcat(b, Repeat(StreamEnd, k - 1), [StreamEnd]);
      BuildOne(b.(ends := k - 1), StreamEnd);
    }
  }

  lemma BuildDocument(starts: nat, n: Node, ends: nat)
    requires WellFormed(n)
    ensures BuildAll(Empty, DocumentEvents(starts, n, ends)) ==
            (var x := Expand(n, map[]);
             if x.None? then None else Some(Builder(After, starts, ends, Some((n, x.value.0)), [], x.value.1)))
  {
    var head := Repeat(StreamStart, starts);
    var before, inside := Empty.(starts := starts), Empty.(starts := starts, phase := Inside);
    BuildStarts(starts);
    BuildOne(before, DocumentStart);
    BuildNode(n, inside);
    BuildAllConcat(Empty, head, [DocumentStart]);
    BuildAllConcat(Empty, head + [DocumentStart], Events(n));
    BuildAllConcat(Empty, head + [DocumentStart] + Events(n), [DocumentEnd]);
    BuildAllConcat(Empty, head + [DocumentStart] + Events(n) + [DocumentEnd], Repeat(StreamEnd, ends));
    var expanded := Expand(n, map[]);
    hide Build, BuildAll, Expand, Repeat, Events;
    if expanded.Some? {
      var t, env := expanded.value.0, expanded.value.1;
      var rooted := Builder(Inside, starts, 0, Some((n, t)), [], env);
      assert Place(inside.(env := env), n, t) == Some(rooted);
      BuildOne(rooted, DocumentEnd);
      EndDocument(rooted);
      BuildEnds(rooted.(phase := After), ends);
    }
  }

  lemma EndDocument(b: Builder)
    requires b.phase == Inside && b.stack == [] && b.root.Some?
    ensures Build(b, DocumentEnd) == Some(b.(phase := After))
  {
  }

  /**
    The main result: on the events of any document the budget accepts if and only if
    every alias resolves and the alias-expanded tree is within all three limits.
   */
  lemma BudgetDecidesDocument(c: Config, starts: nat, n: Node, ends: nat)
    requires c.Valid() && WellFormed(n)
    ensures Accepts(c, DocumentEvents(starts, n, ends)) <==>
            Expand(n, map[]).Some? && Fits(c, Expand(n, map[]).value.0)
  {
    var es := DocumentEvents(starts, n, ends);
    BuildDocument(starts, n, ends);
    hide DocumentEvents;
    if Accepts(c, es) {
      AcceptedPrefixIsMeasured(c, es);
    }
    if Expand(n, map[]).Some? && Fits(c, Expand(n, map[]).value.0) {
      AffordableIsAccepted(c, es);
      AcceptedPrefixIsMeasured(c, es);
    }
    hide Observe, Build, BuildAll, ObserveAll, Expand, Read, Nodes, Depth, ByteSize;
  }

  ghost predicate IsDocument(es: seq<Event>, starts: nat, n: Node, ends: nat) {
    WellFormed(n) && es == DocumentEvents(starts, n, ends)
  }

  /**
    Whatever events arrive, those that are accepted are exactly the serialized documents
    with resolvable aliases whose expansion fits: one document, one root, balanced
    containers, paired mappings.
   */
  lemma AcceptedLanguage(c: Config, es: seq<Event>)
    requires c.Valid()
    ensures Accepts(c, es) <==>
            exists starts, n, ends ::
              IsDocument(es, starts, n, ends) && Expand(n, map[]).Some? && Fits(c, Expand(n, map[]).value.0)
  {
    if Accepts(c, es) {
      AcceptedPrefixIsMeasured(c, es);
      var b := BuildAll(Empty, es).value;
      assert b.phase == After;
      assert Read(b) == DocumentEvents(b.starts, b.root.value.0, b.ends);
      assert IsDocument(es, b.starts, b.root.value.0, b.ends);
      BudgetDecidesDocument(c, b.starts, b.root.value.0, b.ends);
    }
    hide Expand, Fits, Accepts, Events;
    forall starts, n, ends |
      IsDocument(es, starts, n, ends) && Expand(n, map[]).Some? && Fits(c, Expand(n, map[]).value.0)
      ensures Accepts(c, es)
    {
      BudgetDecidesDocument(c, starts, n, ends);
    }
  }
}
