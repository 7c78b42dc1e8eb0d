/** Why the budget refuses: every limit that it reports as exceeded really is exceeded. */
module YamlErrors {
  import opened Common
  import opened YamlEvents
  import opened YamlBudget
  import opened YamlBuilder
  import opened YamlTheorems

  /** Depth of the finished root, or that the open containers have at least. */
  function TotalDepth(b: Builder): nat {
    Max(StackDepth(b.stack), if b.root.Some? then Depth(b.root.value.1) else 0)
  }

  /** The error names a limit that these measures exceed. */
  predicate Exceeds(c: Config, e: BudgetError, nodes: nat, bytes: nat, depth: nat) {
    match e
    case TooManyNodes(max) => max == c.limits.maxNodes < nodes
    case TooManyBytes(max) => max == c.limits.maxBytes < bytes
    case TooDeep(_, max) => max == c.limits.maxDepth < depth
    case Malformed => false
    case MultipleDocuments => false
  }

  ghost predicate Justified(c: Config, e: BudgetError, b: Builder) {
    Exceeds(c, e, TotalNodes(b), TotalBytes(c.layout, b), TotalDepth(b))
  }

  // ----- One event -----

  /** What adopting a child reports, in plain arithmetic. */
  lemma AdoptErrors(c: Config, depth: nat, f: Frame, child: Summary)
    requires c.Valid() && Adopt(c, depth, f, child).Err?
    ensures Exceeds(c, Adopt(c, depth, f, child).error, f.summary.nodes + child.nodes,
                    f.summary.bytes + child.bytes + NextEdge(c, f), Max(f.summary.maxDepth, child.maxDepth + 1))
  {
  }

  lemma ExceedsMore(c: Config, e: BudgetError, nodes: nat, bytes: nat, depth: nat, nodes': nat, bytes': nat, depth': nat)
    requires Exceeds(c, e, nodes, bytes, depth) && nodes <= nodes' && bytes <= bytes' && depth <= depth'
    ensures Exceeds(c, e, nodes', bytes', depth')
  {
  }

  lemma CompletePlain(c: Config, s: State, child: Summary)
    requires c.Valid() && s.frames != [] && CompleteNode(c, s, child).Err?
    ensures var f := s.frames[|s.frames| - 1];
            Exceeds(c, CompleteNode(c, s, child).error, f.summary.nodes + child.nodes,
                    Max(f.summary.bytes + child.bytes, s.bytes) + NextEdge(c, f), Max(f.summary.maxDepth, child.maxDepth + 1))
  {
    var f := s.frames[|s.frames| - 1];
    if Adopt(c, |s.frames|, f, child).Err? {
      AdoptErrors(c, |s.frames|, f, child);
    } else {
      AdoptPlain(c, |s.frames|, f, child);
    }
    hide Adopt, NextEdge;
  }

  lemma FrameGrows(l: Layout, c: Config, f: Frame, p: Partial, n: Node, t: Tree)
    requires l == c.layout && FrameTracks(l, f, p)
    ensures f.summary.nodes + Nodes(t) == Nodes(Extend(p, n, t).ToTree())
    ensures f.summary.bytes + ByteSize(l, t) + NextEdge(c, f) == ByteSize(l, Extend(p, n, t).ToTree())
    ensures Max(f.summary.maxDepth, Depth(t) + 1) == DepthBelow(Extend(p, n, t).trees)
    ensures NextEdge(c, f) == EdgeBytes(l, p.kind, |p.trees|)
  {
    ExtendMeasures(l, p, n, t);
    hide Nodes, ByteSize, Depth, DepthBelow;
  }

  lemma CompleteErrors(c: Config, s: State, b: Builder, n: Node, t: Tree)
    requires c.Valid() && Reserved(c, s, b, t) && Place(b, n, t).Some?
    requires CompleteNode(c, s, Measured(c.layout, t)).Err?
    ensures Justified(c, CompleteNode(c, s, Measured(c.layout, t)).error, Place(b, n, t).value)
  {
    assert b.stack != [] && |s.frames| == |b.stack|;
    var top := |b.stack| - 1;
    var f, p, p', b' := s.frames[top], b.stack[top], Extend(b.stack[top], n, t), Place(b, n, t).value;
    assert FrameTracks(c.layout, f, p) && s.bytes == TotalBytes(c.layout, b) + ByteSize(c.layout, t);
    hide Reserved, CompleteNode, Nodes, ByteSize, Depth, DepthBelow, StackDepth, Place, TotalNodes, TotalBytes, FrameTracks, NextEdge,
      EdgeBytes, Exceeds;
    PlaceSums(c.layout, b, n, t);
    FrameGrows(c.layout, c, f, p, n, t);
    CompletePlain(c, s, Measured(c.layout, t));
    ExceedsMore(c, CompleteNode(c, s, Measured(c.layout, t)).error, f.summary.nodes + Nodes(t),
                Max(f.summary.bytes + ByteSize(c.layout, t), s.bytes) + NextEdge(c, f), Max(f.summary.maxDepth, Depth(t) + 1),
                TotalNodes(b'), TotalBytes(c.layout, b'), TotalDepth(b'));
  }

  /** The measures of a place below a node. */
  lemma PlaceMeasures(l: Layout, b: Builder, n: Node, t: Tree)
    requires Place(b, n, t).Some?
    ensures var b' := Place(b, n, t).value;
            && TotalNodes(b') == TotalNodes(b) + Nodes(t) && TotalBytes(l, b') >= TotalBytes(l, b) + ByteSize(l, t)
            && TotalDepth(b') >= |b.stack| + Depth(t)
  {
    if b.stack != [] {
      PlaceSums(l, b, n, t);
      PlaceDepth(b, n, t);
      hide Nodes, ByteSize, Depth, DepthBelow, StackDepth, TotalNodes, TotalBytes, Place;
    }
  }

  lemma AddErrors(c: Config, s: State, b: Builder, n: Node, t: Tree)
    requires c.Valid() && Tracks(c, s, b) && b.phase == Inside && Place(b, n, t).Some?
    requires AddNode(c, s, Measured(c.layout, t)).Err?
    ensures Justified(c, AddNode(c, s, Measured(c.layout, t)).error, Place(b, n, t).value)
  {
    hide Shaped, CompleteNode, Nodes, ByteSize, Depth, AnchorsTrack, Place, FrameTracks, TotalNodes, TotalBytes, TotalDepth;
    var reserved := s.(nodes := s.nodes + Nodes(t), bytes := s.bytes + ByteSize(c.layout, t));
    PlaceMeasures(c.layout, b, n, t);
    assert |s.frames| == |b.stack|;
    hide FramesTrack;
    if CompleteNode(c, reserved, Measured(c.layout, t)).Err? {
      CompleteErrors(c, reserved, b, n, t);
    }
  }

  lemma ScalarErrorsPlain(c: Config, s: State, v: Bytes, anchor: nat, tag: Option<Tag>)
    requires s.inDocument && Observe(c, s, ScalarEvent(v, anchor, tag)).Err?
    ensures var summary, e := ScalarSummary(c, v, tag), Observe(c, s, ScalarEvent(v, anchor, tag)).error;
            if summary.Err? then e == BytesError(c)
            else AddNode(c, s, summary.value).Err? && e == AddNode(c, s, summary.value).error
  {
    assert ScalarSummary(c, v, tag).Err? ==> ScalarSummary(c, v, tag).error == BytesError(c);
    hide AddNode, ScalarSummary;
  }

  lemma ScalarErrors(c: Config, s: State, b: Builder, v: Bytes, anchor: nat, tag: Option<Tag>)
    requires c.Valid() && Tracks(c, s, b)
    requires Build(b, ScalarEvent(v, anchor, tag)).Some? && Observe(c, s, ScalarEvent(v, anchor, tag)).Err?
    ensures Justified(c, Observe(c, s, ScalarEvent(v, anchor, tag)).error, Build(b, ScalarEvent(v, anchor, tag)).value)
  {
    var n, t := Scalar(v, tag, anchor), Leaf(v, tag);
    assert PhaseTracks(s, b);
    ScalarTracks(c, v, tag);
    hide AddNode, Tracks, PhaseTracks, Measured, ByteSize, ScalarSummary, Place, Bind, Observe;
    ScalarErrorsPlain(c, s, v, anchor, tag);
    PlaceEnv(b, Bind(b.env, anchor, Bound(t)), n, t);
    PlaceMeasures(c.layout, b, n, t);
    if ScalarSummary(c, v, tag).Ok? {
      AddErrors(c, s, b, n, t);
    }
    hide Nodes, StackNodes, StackBytes, StackDepth, Depth;
  }

  lemma AliasErrors(c: Config, s: State, b: Builder, target: nat)
    requires c.Valid() && Tracks(c, s, b)
    requires Build(b, AliasEvent(target)).Some? && Observe(c, s, AliasEvent(target)).Err?
    ensures Justified(c, Observe(c, s, AliasEvent(target)).error, Build(b, AliasEvent(target)).value)
  {
    assert PhaseTracks(s, b) && s.anchors.Keys == b.env.Keys;
    assert AnchorTracks(c.layout, s.anchors[target], b.env[target]);
    hide AddNode, Place, Tracks, Measured, Justified;
    AddErrors(c, s, b, Alias(target), b.env[target].tree);
  }

  lemma StartErrorsPlain(c: Config, s: State, kind: Kind, anchor: nat, tag: Option<Tag>)
    requires c.Valid() && s.inDocument && StartContainer(c, s, kind, anchor, tag).Err?
    ensures Exceeds(c, StartContainer(c, s, kind, anchor, tag).error, s.nodes + 1 + TagLevel(tag),
                    s.bytes + ContainerBytes(c.layout, kind) + TagBytes(c.layout, tag), |s.frames| + TagLevel(tag))
  {
    ContainerBytesPlain(c, kind, tag);
    assert CheckedContainerBytes(c, kind, tag).Err? ==> CheckedContainerBytes(c, kind, tag).error == BytesError(c);
    hide CheckedContainerBytes, SetAnchor, ContainerBytes, TagBytes;
  }

  lemma StartErrors(c: Config, s: State, b: Builder, kind: Kind, anchor: nat, tag: Option<Tag>)
    requires c.Valid() && Tracks(c, s, b) && b.phase == Inside && StartContainer(c, s, kind, anchor, tag).Err?
    ensures Justified(c, StartContainer(c, s, kind, anchor, tag).error, Enter(b, kind, anchor, tag))
  {
    var b' := Enter(b, kind, anchor, tag);
    assert s.inDocument && |s.frames| == |b.stack| && s.nodes == TotalNodes(b) && s.bytes == TotalBytes(c.layout, b);
    OpenTracks(c, s, b, kind, anchor, tag);
    OpenDepth(b.stack, Partial(kind, anchor, tag, [], []));
    assert TotalDepth(b') >= |b.stack| + TagLevel(tag);
    StartErrorsPlain(c, s, kind, anchor, tag);
    hide Tracks, StartContainer, TotalNodes, TotalBytes, TotalDepth, Enter, FramesTrack, Exceeds, ContainerBytes, TagBytes, TagLevel;
    ExceedsMore(c, StartContainer(c, s, kind, anchor, tag).error, s.nodes + 1 + TagLevel(tag),
                s.bytes + ContainerBytes(c.layout, kind) + TagBytes(c.layout, tag), |s.frames| + TagLevel(tag),
                TotalNodes(b'), TotalBytes(c.layout, b'), TotalDepth(b'));
  }

  lemma EndErrors(c: Config, s: State, b: Builder, kind: Kind)
    requires c.Valid() && Tracks(c, s, b) && b.phase == Inside && Leave(b, kind).Some? && EndContainer(c, s, kind).Err?
    ensures Justified(c, EndContainer(c, s, kind).error, Leave(b, kind).value)
  {
    TrackedFrame(c, s, b);
    var p, rest := b.Top(), |s.frames| - 1;
    var t := p.ToTree();
    EndPlain(c, s, kind, p);
    PopReserves(c, s, b);
    PlaceMeasures(c.layout, b.Popped(), p.ToNode(), t);
    if rest + Depth(t) <= c.limits.maxDepth {
      hide EndContainer, CompleteNode, Tracks, Place, Reserved, Depth, FrameTracks, Measured, SetAnchor, Justified;
      CompleteErrors(c, Popped(c, s, p), b.Popped(), p.ToNode(), t);
    } else {
      EndTooDeep(c, s, kind, p);
      hide EndContainer, Tracks, Place, Reserved, Depth, FrameTracks, Measured, TotalDepth, TotalNodes, TotalBytes;
    }
  }

  lemma EndTooDeep(c: Config, s: State, kind: Kind, p: Partial)
    requires c.Valid() && s.inDocument && s.frames != [] && FrameTracks(c.layout, s.frames[|s.frames| - 1], p)
    requires p.kind == kind && !(kind == Mapping && |p.items| % 2 == 1)
    requires |s.frames| - 1 + Depth(p.ToTree()) > c.limits.maxDepth
    ensures EndContainer(c, s, kind).Err? && EndContainer(c, s, kind).error.TooDeep?
    ensures EndContainer(c, s, kind).error.maxDepth == c.limits.maxDepth
  {
    FrameMeasures(c.layout, s.frames[|s.frames| - 1], p);
    hide FrameTracks, CompleteNode, Depth, Measured, SetAnchor;
  }

  /** An event that a document may go on with is only refused for a limit that it exceeds. */
  lemma StepErrors(c: Config, s: State, b: Builder, e: Event)
    requires c.Valid() && Tracks(c, s, b) && Build(b, e).Some? && Observe(c, s, e).Err?
    ensures Justified(c, Observe(c, s, e).error, Build(b, e).value)
  {
    assert PhaseTracks(s, b);
    match e
    case ScalarEvent(v, anchor, tag) => ScalarErrors(c, s, b, v, anchor, tag);
    case AliasEvent(target) => AliasErrors(c, s, b, target);
    case ContainerStart(kind, anchor, tag) => StartErrors(c, s, b, kind, anchor, tag);
    case ContainerEnd(kind) => EndErrors(c, s, b, kind);
    case _ =>
  }

  // ----- What was read can only grow -----

  lemma {:induction false} PrefixAffordable(c: Config, es: seq<Event>, k: nat)
    requires k <= |es| && BuildAll(Empty, es).Some? && Affordable(c, BuildAll(Empty, es).value)
    ensures BuildAll(Empty, es[..k]).Some? && Affordable(c, BuildAll(Empty, es[..k]).value)
    decreases |es|
  {
    hide Build, Affordable;
    if k == |es| {
      assert es[..k] == es;
    } else {
      var init, last := es[..|es| - 1], es[|es| - 1];
      BuildAffordable(c, BuildAll(Empty, init).value, last);
      PrefixAffordable(c, init, k);
      assert init[..k] == es[..k];
    }
  }

  /** No measure of a prefix exceeds that of the whole. */
  lemma PrefixMeasures(l: Layout, es: seq<Event>, k: nat)
    requires k <= |es| && BuildAll(Empty, es).Some?
    ensures BuildAll(Empty, es[..k]).Some?
    ensures var b, b' := BuildAll(Empty, es[..k]).value, BuildAll(Empty, es).value;
            TotalNodes(b) <= TotalNodes(b') && TotalBytes(l, b) <= TotalBytes(l, b') && TotalDepth(b) <= TotalDepth(b')
  {
    var b' := BuildAll(Empty, es).value;
    var exact := Config(l, Limits(TotalDepth(b'), TotalNodes(b'), TotalBytes(l, b')));
    hide BuildAll, TotalNodes, TotalBytes, StackDepth, Depth;
    assert Affordable(exact, b');
    PrefixAffordable(exact, es, k);
  }

  // ----- Whole streams -----

  lemma {:induction false} FirstRefusal(c: Config, es: seq<Event>) returns (k: nat)
    requires ObserveAll(c, Initial, es).Err?
    ensures k < |es| && ObserveAll(c, Initial, es[..k]).Ok?
    ensures ObserveAll(c, Initial, es) == Observe(c, ObserveAll(c, Initial, es[..k]).value, es[k])
    decreases |es|
  {
    hide Observe;
    var init := es[..|es| - 1];
    if ObserveAll(c, Initial, init).Err? {
      k := FirstRefusal(c, init);
      assert init[..k] == es[..k];
    } else {
      k := |es| - 1;
    }
  }

  /** A refusal of events that begin some document is justified by what they spell. */
  lemma RefusalIsJustified(c: Config, es: seq<Event>)
    requires c.Valid() && BuildAll(Empty, es).Some? && ObserveAll(c, Initial, es).Err?
    ensures Justified(c, ObserveAll(c, Initial, es).error, BuildAll(Empty, es).value)
  {
    hide Observe, Build, ObserveAll, BuildAll, Tracks, Checked, Read, TotalNodes, TotalBytes, TotalDepth, Exceeds;
    var k := FirstRefusal(c, es);
    var error := ObserveAll(c, Initial, es).error;
    AcceptedPrefixIsMeasured(c, es[..k]);
    assert es[..k + 1] == es[..k] + [es[k]];
    BuildAllSnoc(Empty, es[..k], es[k]);
    PrefixMeasures(c.layout, es, k + 1);
    StepErrors(c, ObserveAll(c, Initial, es[..k]).value, BuildAll(Empty, es[..k]).value, es[k]);
    var b, b' := BuildAll(Empty, es[..k + 1]).value, BuildAll(Empty, es).value;
    ExceedsMore(c, error, TotalNodes(b), TotalBytes(c.layout, b), TotalDepth(b), TotalNodes(b'), TotalBytes(c.layout, b'), TotalDepth(b'));
  }

  /** The measures of a whole document are those of its expanded tree. */
  lemma DocumentMeasures(l: Layout, starts: nat, n: Node, ends: nat)
    requires WellFormed(n) && Expand(n, map[]).Some?
    ensures BuildAll(Empty, DocumentEvents(starts, n, ends)).Some?
    ensures var t, b := Expand(n, map[]).value.0, BuildAll(Empty, DocumentEvents(starts, n, ends)).value;
            TotalNodes(b) == Nodes(t) && TotalBytes(l, b) == ByteSize(l, t) && TotalDepth(b) == Depth(t)
  {
    hide BuildAll, DocumentEvents, Expand, Nodes, ByteSize, Depth, WellFormed;
    BuildDocument(starts, n, ends);
    var b := BuildAll(Empty, DocumentEvents(starts, n, ends)).value;
    assert StackNodes(b.stack) == 0 && StackBytes(l, b.stack) == 0 && StackDepth(b.stack) == 0;
  }

  /**
    On any beginning of a document whose aliases resolve, every refusal names a limit and its
    value, and the expanded tree exceeds it; such a document is never called malformed.
   */
  lemma DocumentRefusalIsJustified(c: Config, starts: nat, n: Node, ends: nat, es: seq<Event>)
    requires c.Valid() && WellFormed(n) && Expand(n, map[]).Some? && es <= DocumentEvents(starts, n, ends)
    ensures var t, r := Expand(n, map[]).value.0, ObserveAll(c, Initial, es);
            r.Err? ==> Exceeds(c, r.error, Nodes(t), ByteSize(c.layout, t), Depth(t))
  {
    var whole := DocumentEvents(starts, n, ends);
    hide ObserveAll, BuildAll, DocumentEvents, Expand, Exceeds, Nodes, ByteSize, Depth, WellFormed, TotalNodes, TotalBytes, TotalDepth;
    DocumentMeasures(c.layout, starts, n, ends);
    assert es == whole[..|es|];
    PrefixMeasures(c.layout, whole, |es|);
    if ObserveAll(c, Initial, es).Err? {
      RefusalIsJustified(c, es);
      var t, b := Expand(n, map[]).value.0, BuildAll(Empty, es).value;
      ExceedsMore(c, ObserveAll(c, Initial, es).error, TotalNodes(b), TotalBytes(c.layout, b), TotalDepth(b),
                  Nodes(t), ByteSize(c.layout, t), Depth(t));
    }
  }

  lemma {:induction false} RepeatHas(e: Event, k: nat, x: Event)
    ensures x in Repeat(e, k) ==> x == e
  {
    if k > 0 {
      RepeatHas(e, k - 1, x);
    }
  }

  lemma {:induction false} NodeHasNoDocumentEnd(n: Node)
    ensures DocumentEnd !in Events(n)
    decreases n, 1
  {
    if n.Container? {
      ItemsHaveNoDocumentEnd(n.items);
    }
  }

  lemma {:induction false} ItemsHaveNoDocumentEnd(ns: seq<Node>)
    ensures DocumentEnd !in EventsAll(ns)
    decreases ns, 0
  {
    if ns != [] {
      ItemsHaveNoDocumentEnd(ns[..|ns| - 1]);
      NodeHasNoDocumentEnd(ns[|ns| - 1]);
    }
  }

  lemma {:induction false} StackHasNoDocumentEnd(stack: seq<Partial>)
    ensures DocumentEnd !in StackEvents(stack)
    decreases |stack|
  {
    if stack != [] {
      StackHasNoDocumentEnd(stack[..|stack| - 1]);
      ItemsHaveNoDocumentEnd(stack[|stack| - 1].items);
    }
  }

  lemma AfterDocument(b: Builder)
    ensures b.phase == After <==> DocumentEnd in Read(b)
  {
    RepeatHas(StreamStart, b.starts, DocumentEnd);
    RepeatHas(StreamEnd, b.ends, DocumentEnd);
    StackHasNoDocumentEnd(b.stack);
    if b.root.Some? {
      NodeHasNoDocumentEnd(b.root.value.0);
    }
    hide Repeat, Events, StackEvents;
  }

  ghost predicate SecondDocumentAt(c: Config, es: seq<Event>, k: nat) {
    k < |es| && ObserveAll(c, Initial, es[..k]).Ok? && es[k] == DocumentStart && DocumentEnd in es[..k]
  }

  lemma SecondDocumentStep(c: Config, s: State, b: Builder, e: Event)
    requires Tracks(c, s, b)
    ensures Observe(c, s, e) == Err(MultipleDocuments) <==> e == DocumentStart && b.phase == After
  {
    assert PhaseTracks(s, b);
    hide Tracks, ScalarSummary, AddNode, StartContainer, EndContainer;
    NoOtherSource(c, s, e);
  }

  lemma NoOtherSource(c: Config, s: State, e: Event)
    ensures e != DocumentStart ==> Observe(c, s, e) != Err(MultipleDocuments)
  {
    hide CompleteNode, SetAnchor;
    forall s', summary
      ensures CompleteNode(c, s', summary) != Err(MultipleDocuments)
    {
      CompleteIsOther(c, s', summary);
    }
  }

  lemma CompleteIsOther(c: Config, s: State, summary: Summary)
    ensures CompleteNode(c, s, summary) != Err(MultipleDocuments)
  {
  }

  /** A second document is reported exactly when a document start follows a finished document. */
  lemma MultipleDocumentsExactly(c: Config, es: seq<Event>)
    requires c.Valid()
    ensures ObserveAll(c, Initial, es) == Err(MultipleDocuments) <==> exists k: nat :: SecondDocumentAt(c, es, k)
  {
    hide Observe, ObserveAll, BuildAll, Tracks, Checked, Read;
    if ObserveAll(c, Initial, es) == Err(MultipleDocuments) {
      var k := FirstRefusal(c, es);
      AcceptedPrefixIsMeasured(c, es[..k]);
      SecondDocumentStep(c, ObserveAll(c, Initial, es[..k]).value, BuildAll(Empty, es[..k]).value, es[k]);
      AfterDocument(BuildAll(Empty, es[..k]).value);
      assert SecondDocumentAt(c, es, k);
    }
    forall k: nat | SecondDocumentAt(c, es, k)
      ensures ObserveAll(c, Initial, es) == Err(MultipleDocuments)
    {
      AcceptedPrefixIsMeasured(c, es[..k]);
      SecondDocumentStep(c, ObserveAll(c, Initial, es[..k]).value, BuildAll(Empty, es[..k]).value, es[k]);
      AfterDocument(BuildAll(Empty, es[..k]).value);
      ObserveAllSnoc(c, Initial, es[..k], es[k]);
      assert es[..k + 1] == es[..k] + [es[k]];
      ObserveAllPrefix(c, Initial, es, k + 1);
    }
  }
}
