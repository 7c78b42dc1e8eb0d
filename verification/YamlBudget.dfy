/**
  The one-pass event budget of the YAML preflight.

  `Observe` and the functions below it are the specification of one event, on a
  value; `YamlEventBudget` is the mutable object that the preflight drives.
 */
module YamlBudget {
  import opened Common
  import opened YamlEvents

  datatype BudgetError =
    | Malformed
    | MultipleDocuments
    | TooDeep(depth: nat, maxDepth: nat)
    | TooManyNodes(maxNodes: nat)
    | TooManyBytes(maxBytes: nat)

  datatype Summary = Summary(nodes: nat, maxDepth: nat, bytes: nat)

  datatype Anchor = Open | Complete(summary: Summary)

  datatype Frame = Frame(kind: Kind, anchor: nat, tagged: bool, expectsValue: bool, summary: Summary)

  datatype State = State(
    documents: nat,
    inDocument: bool,
    root: Option<Summary>,
    frames: seq<Frame>,
    anchors: map<nat, Anchor>,
    nodes: nat,
    bytes: nat)

  const Initial := State(0, false, None, [], map[], 0, 0)

  type Outcome<T> = Result<T, BudgetError>

  function CheckedAdd(c: Config, a: nat, b: nat, overflow: BudgetError): Outcome<nat> {
    if a + b <= c.layout.usizeMax then Ok(a + b) else Err(overflow)
  }

  function NodesError(c: Config): BudgetError { TooManyNodes(c.limits.maxNodes) }

  function BytesError(c: Config): BudgetError { TooManyBytes(c.limits.maxBytes) }

  function DepthError(c: Config, depth: nat): BudgetError { TooDeep(depth, c.limits.maxDepth) }

  function CheckedTagBytes(c: Config, tag: Tag): Outcome<nat> {
    var text :- CheckedAdd(c, |tag.handle|, |tag.suffix|, BytesError(c));
    CheckedAdd(c, text, c.layout.value, BytesError(c))
  }

  function ScalarSummary(c: Config, value: Bytes, tag: Option<Tag>): Outcome<Summary> {
    var plain :- CheckedAdd(c, c.layout.value, |value|, BytesError(c));
    if tag.None? then Ok(Summary(1, 0, plain))
    else
      var extra :- CheckedTagBytes(c, tag.value);
      var bytes :- CheckedAdd(c, plain, extra, BytesError(c));
      Ok(Summary(2, 1, bytes))
  }

  function CheckedContainerBytes(c: Config, kind: Kind, tag: Option<Tag>): Outcome<nat> {
    var plain := ContainerBytes(c.layout, kind);
    if tag.None? then Ok(plain)
    else
      var extra :- CheckedTagBytes(c, tag.value);
      CheckedAdd(c, plain, extra, BytesError(c))
  }

  function MappingEntryBytes(c: Config): Outcome<nat> {
    var values :- CheckedAdd(c, c.layout.value, c.layout.value, BytesError(c));
    var metadata :- CheckedAdd(c, c.layout.word, c.layout.word, BytesError(c));
    CheckedAdd(c, values, metadata, BytesError(c))
  }

  function EnsureInDocument(s: State): Outcome<()> {
    if s.inDocument then Ok(()) else Err(Malformed)
  }

  function EnsureDepth(c: Config, frames: nat, relative: nat): Outcome<()> {
    var depth :- CheckedAdd(c, frames, relative, DepthError(c, frames));
    if depth > c.limits.maxDepth then Err(DepthError(c, depth)) else Ok(())
  }

  function Reserve(c: Config, s: State, summary: Summary): Outcome<State> {
    var nodes :- CheckedAdd(c, s.nodes, summary.nodes, NodesError(c));
    if nodes > c.limits.maxNodes then Err(NodesError(c))
    else
      var bytes :- CheckedAdd(c, s.bytes, summary.bytes, BytesError(c));
      if bytes > c.limits.maxBytes then Err(BytesError(c))
      else Ok(s.(nodes := nodes, bytes := bytes))
  }

  /** The frame after one more child, and the storage charged for the child's place. */
  function Adopt(c: Config, depth: nat, frame: Frame, child: Summary): Outcome<(Frame, nat)> {
    var edge :- if frame.kind == Sequence then Ok(c.layout.value)
                else if frame.expectsValue then MappingEntryBytes(c)
                else Ok(0);
    var nodes :- CheckedAdd(c, frame.summary.nodes, child.nodes, NodesError(c));
    var below :- CheckedAdd(c, child.maxDepth, 1, DepthError(c, depth));
    var maxDepth := Max(frame.summary.maxDepth, below);
    if maxDepth > c.limits.maxDepth then Err(DepthError(c, depth))
    else
      var partial :- CheckedAdd(c, frame.summary.bytes, child.bytes, BytesError(c));
      var bytes :- CheckedAdd(c, partial, edge, BytesError(c));
      Ok((frame.(summary := Summary(nodes, maxDepth, bytes),
                 expectsValue := if frame.kind == Mapping then !frame.expectsValue else frame.expectsValue),
          edge))
  }

  function CompleteNode(c: Config, s: State, summary: Summary): Outcome<State> {
    if s.frames == [] then
      if s.root.Some? then Err(Malformed) else Ok(s.(root := Some(summary)))
    else
      var top := |s.frames| - 1;
      var (frame, edge) :- Adopt(c, |s.frames|, s.frames[top], summary);
      var total :- CheckedAdd(c, s.bytes, edge, BytesError(c));
      if total > c.limits.maxBytes then Err(BytesError(c))
      else Ok(s.(frames := s.frames[top := frame], bytes := total))
  }

  function SetAnchor(s: State, anchor: nat, a: Anchor): State {
    if anchor == 0 then s else s.(anchors := s.anchors[anchor := a])
  }

  /** A node whose summary is known at once: a scalar, or an alias of a finished anchor. */
  function AddNode(c: Config, s: State, summary: Summary): Outcome<State> {
    var reserved :- Reserve(c, s, summary);
    var _ :- EnsureDepth(c, |s.frames|, summary.maxDepth);
    CompleteNode(c, reserved, summary)
  }

  function StartContainer(c: Config, s: State, kind: Kind, anchor: nat, tag: Option<Tag>): Outcome<State> {
    var _ :- EnsureInDocument(s);
    var _ :- EnsureDepth(c, |s.frames|, TagLevel(tag));
    var bytes :- CheckedContainerBytes(c, kind, tag);
    var summary := Summary(1 + TagLevel(tag), 0, bytes);
    var reserved :- Reserve(c, s, summary);
    var frame := Frame(kind, anchor, tag.Some?, false, summary);
    Ok(SetAnchor(reserved.(frames := s.frames + [frame]), anchor, Open))
  }

  function EndContainer(c: Config, s: State, kind: Kind): Outcome<State> {
    var _ :- EnsureInDocument(s);
    if s.frames == [] then Err(Malformed)
    else
      var rest := |s.frames| - 1;
      var frame := s.frames[rest];
      if frame.kind != kind || (frame.kind == Mapping && frame.expectsValue) then Err(Malformed)
      else
        var depth :- if frame.tagged
                     then CheckedAdd(c, frame.summary.maxDepth, 1, DepthError(c, rest))
                     else Ok(frame.summary.maxDepth);
        var summary := frame.summary.(maxDepth := depth);
        var _ :- EnsureDepth(c, rest, depth);
        CompleteNode(c, SetAnchor(s.(frames := s.frames[..rest]), frame.anchor, Complete(summary)), summary)
  }

  function Observe(c: Config, s: State, e: Event): Outcome<State> {
    match e
    case StreamStart =>
      if s.documents != 0 || s.inDocument || s.root.Some? then Err(Malformed) else Ok(s)
    case DocumentStart =>
      if s.inDocument then Err(Malformed)
      else if s.documents != 0 then Err(MultipleDocuments)
      else Ok(s.(documents := 1, inDocument := true, root := None, frames := [], anchors := map[]))
    case DocumentEnd =>
      if !s.inDocument || s.frames != [] || s.root.None? then Err(Malformed)
      else Ok(s.(inDocument := false))
    case StreamEnd =>
      if s.inDocument || s.frames != [] || s.documents != 1 then Err(Malformed) else Ok(s)
    case ScalarEvent(value, anchor, tag) =>
      var _ :- EnsureInDocument(s);
      var summary :- ScalarSummary(c, value, tag);
      var added :- AddNode(c, s, summary);
      Ok(SetAnchor(added, anchor, Complete(summary)))
    case AliasEvent(target) =>
      var _ :- EnsureInDocument(s);
      if target in s.anchors && s.anchors[target].Complete?
      then AddNode(c, s, s.anchors[target].summary)
      else Err(Malformed)
    case ContainerStart(kind, anchor, tag) => StartContainer(c, s, kind, anchor, tag)
    case ContainerEnd(kind) => EndContainer(c, s, kind)
    case Nothing => Err(Malformed)
  }

  function Finish(s: State): Outcome<()> {
    if s.inDocument || s.frames != [] || s.documents != 1 then Err(Malformed) else Ok(())
  }

  function ObserveAll(c: Config, s: State, es: seq<Event>): Outcome<State> {
    if es == [] then Ok(s)
    else
      var before :- ObserveAll(c, s, es[..|es| - 1]);
      Observe(c, before, es[|es| - 1])
  }

  /** Every event is observed without an error and the budget finishes. */
  predicate Accepts(c: Config, es: seq<Event>) {
    var r := ObserveAll(c, Initial, es);
    r.Ok? && Finish(r.value).Ok?
  }

  lemma ObserveAllSnoc(c: Config, s: State, es: seq<Event>, e: Event)
    ensures ObserveAll(c, s, es + [e]) == (var r := ObserveAll(c, s, es); if r.Ok? then Observe(c, r.value, e) else r)
  {
    assert (es + [e])[..|es|] == es;
  }

  /** A run that has failed stays failed. */
  lemma {:induction false} ObserveAllPrefix(c: Config, s: State, es: seq<Event>, k: nat)
    requires k <= |es|
    requires ObserveAll(c, s, es[..k]).Err?
    ensures ObserveAll(c, s, es) == ObserveAll(c, s, es[..k])
    decreases |es|
  {
    if k == |es| {
      assert es[..k] == es;
    } else {
      assert es[..|es| - 1][..k] == es[..k];
      ObserveAllPrefix(c, s, es[..|es| - 1], k);
    }
  }

  function Forget<T>(r: Outcome<T>): Outcome<()> {
    if r.Ok? then Ok(()) else Err(r.error)
  }

  /** The budget as the program keeps it: fields updated in place by each event. */
  class YamlEventBudget {
    const config: Config
    var documents: nat
    var inDocument: bool
    var root: Option<Summary>
    var frames: seq<Frame>
    var anchors: map<nat, Anchor>
    var nodes: nat
    var expandedBytes: nat

    constructor (config: Config)
      ensures this.config == config && View() == Initial
    {
      this.config := config;
      documents, inDocument, root, frames, anchors, nodes, expandedBytes := 0, false, None, [], map[], 0, 0;
    }

    function View(): State
      reads this
    {
      State(documents, inDocument, root, frames, anchors, nodes, expandedBytes)
    }

    method ReserveSummary(summary: Summary) returns (r: Outcome<()>)
      modifies this`nodes, this`expandedBytes
      ensures r == Forget(Reserve(config, old(View()), summary))
      ensures r.Ok? ==> View() == Reserve(config, old(View()), summary).value
      ensures r.Err? ==> View() == old(View())
    {
      var newNodes :- CheckedAdd(config, nodes, summary.nodes, NodesError(config));
      if newNodes > config.limits.maxNodes {
        return Err(NodesError(config));
      }
      var newBytes :- CheckedAdd(config, expandedBytes, summary.bytes, BytesError(config));
      if newBytes > config.limits.maxBytes {
        return Err(BytesError(config));
      }
      nodes, expandedBytes := newNodes, newBytes;
      return Ok(());
    }

    method Complete(summary: Summary) returns (r: Outcome<()>)
      modifies this`root, this`frames, this`expandedBytes
      ensures r == Forget(CompleteNode(config, old(View()), summary))
      ensures r.Ok? ==> View() == CompleteNode(config, old(View()), summary).value
    {
      if frames == [] {
        var previous := root;
        root := Some(summary);
        return if previous.Some? then Err(Malformed) else Ok(());
      }
      var top := |frames| - 1;
      var adopted :- Adopt(config, |frames|, frames[top], summary);
      var total :- CheckedAdd(config, expandedBytes, adopted.1, BytesError(config));
      if total > config.limits.maxBytes {
        return Err(BytesError(config));
      }
      frames := frames[top := adopted.0];
      expandedBytes := total;
      return Ok(());
    }

    method Start(kind: Kind, anchor: nat, tag: Option<Tag>) returns (r: Outcome<()>)
      modifies this`nodes, this`expandedBytes, this`frames, this`anchors
      ensures r == Forget(StartContainer(config, old(View()), kind, anchor, tag))
      ensures r.Ok? ==> View() == StartContainer(config, old(View()), kind, anchor, tag).value
    {
      var _ :- EnsureInDocument(View());
      var _ :- EnsureDepth(config, |frames|, TagLevel(tag));
      var bytes :- CheckedContainerBytes(config, kind, tag);
      var summary := Summary(1 + TagLevel(tag), 0, bytes);
      var _ :- ReserveSummary(summary);
      frames := frames + [Frame(kind, anchor, tag.Some?, false, summary)];
      if anchor != 0 {
        anchors := anchors[anchor := Open];
      }
      return Ok(());
    }

    method End(kind: Kind) returns (r: Outcome<()>)
      modifies this`root, this`frames, this`anchors, this`expandedBytes
      ensures r == Forget(EndContainer(config, old(View()), kind))
      ensures r.Ok? ==> View() == EndContainer(config, old(View()), kind).value
    {
      var _ :- EnsureInDocument(View());
      if frames == [] {
        return Err(Malformed);
      }
      var rest := |frames| - 1;
      var frame := frames[rest];
      frames := frames[..rest];
      if frame.kind != kind || (frame.kind == Mapping && frame.expectsValue) {
        return Err(Malformed);
      }
      var depth := frame.summary.maxDepth;
      if frame.tagged {
        depth :- CheckedAdd(config, depth, 1, DepthError(config, rest));
      }
      var summary := frame.summary.(maxDepth := depth);
      var _ :- EnsureDepth(config, rest, depth);
      if frame.anchor != 0 {
        anchors := anchors[frame.anchor := Anchor.Complete(summary)];
      }
      r := Complete(summary);
    }

    method Add(summary: Summary) returns (r: Outcome<()>)
      modifies this`root, this`frames, this`nodes, this`expandedBytes
      ensures r == Forget(AddNode(config, old(View()), summary))
      ensures r.Ok? ==> View() == AddNode(config, old(View()), summary).value
    {
      var _ :- ReserveSummary(summary);
      var _ :- EnsureDepth(config, |frames|, summary.maxDepth);
      r := Complete(summary);
    }

    method ObserveEvent(event: Event) returns (r: Outcome<()>)
      modifies this
      ensures r == Forget(Observe(config, old(View()), event))
      ensures r.Ok? ==> View() == Observe(config, old(View()), event).value
    {
      match event {
        case StreamStart =>
          if documents != 0 || inDocument || root.Some? {
            return Err(Malformed);
          }
        case DocumentStart =>
          if inDocument {
            return Err(Malformed);
          }
          if documents != 0 {
            return Err(MultipleDocuments);
          }
          documents, inDocument, root, frames, anchors := 1, true, None, [], map[];
        case DocumentEnd =>
          if !inDocument || frames != [] || root.None? {
            return Err(Malformed);
          }
          inDocument := false;
        case StreamEnd =>
          if inDocument || frames != [] || documents != 1 {
            return Err(Malformed);
          }
        case ScalarEvent(value, anchor, tag) =>
          var _ :- EnsureInDocument(View());
          var summary :- ScalarSummary(config, value, tag);
          var _ :- Add(summary);
          if anchor != 0 {
            anchors := anchors[anchor := Anchor.Complete(summary)];
          }
        case AliasEvent(target) =>
          var _ :- EnsureInDocument(View());
          if target !in anchors || anchors[target].Open? {
            return Err(Malformed);
          }
          var _ :- Add(anchors[target].summary);
        case ContainerStart(kind, anchor, tag) =>
          var _ :- Start(kind, anchor, tag);
        case ContainerEnd(kind) =>
          var _ :- End(kind);
        case Nothing =>
          return Err(Malformed);
      }
      return Ok(());
    }
  }

  /** The tokens read by the preflight: up to the first StreamEnd. */
  function FirstStreamEnd(es: seq<Event>): (k: nat)
    ensures k <= |es|
    ensures k < |es| ==> es[k] == StreamEnd
    ensures forall i :: 0 <= i < k ==> es[i] != StreamEnd
  {
    if es == [] || es[0] == StreamEnd then 0 else 1 + FirstStreamEnd(es[1..])
  }

  /** The result for what the parser delivers; without an end of the stream it has failed. */
  function Preflighted(config: Config, tokens: seq<Event>): Outcome<()> {
    var k := FirstStreamEnd(tokens);
    var run :- ObserveAll(config, Initial, tokens[..if k < |tokens| then k + 1 else k]);
    if k < |tokens| then Finish(run) else Err(Malformed)
  }

  lemma PreflightedFails(config: Config, tokens: seq<Event>, i: nat)
    requires i < |tokens| && i <= FirstStreamEnd(tokens) && ObserveAll(config, Initial, tokens[..i + 1]).Err?
    ensures Preflighted(config, tokens) == Err(ObserveAll(config, Initial, tokens[..i + 1]).error)
  {
    hide Observe, FirstStreamEnd;
    var k := FirstStreamEnd(tokens);
    var end := if k < |tokens| then k + 1 else k;
    assert tokens[..end][..i + 1] == tokens[..i + 1];
    ObserveAllPrefix(config, Initial, tokens[..end], i + 1);
  }

  lemma PreflightedEnds(config: Config, tokens: seq<Event>, i: nat)
    requires i == FirstStreamEnd(tokens) < |tokens| && ObserveAll(config, Initial, tokens[..i + 1]).Ok?
    ensures Preflighted(config, tokens) == Finish(ObserveAll(config, Initial, tokens[..i + 1]).value)
  {
    hide ObserveAll, FirstStreamEnd;
  }

  /**
    The preflight loop.  `tokens` is what the parser delivers before it fails; running
    out of tokens is that failure.
   */
  method Preflight(config: Config, tokens: seq<Event>) returns (r: Outcome<()>)
    ensures r == Preflighted(config, tokens)
  {
    assert ObserveAll(config, Initial, []) == Ok(Initial) && tokens[..0] == [];
    var budget := new YamlEventBudget(config);
    ghost var last := FirstStreamEnd(tokens);
    hide Observe, ObserveAll, FirstStreamEnd, Preflighted, Finish;
    for i := 0 to |tokens|
      invariant i <= last
      invariant ObserveAll(config, Initial, tokens[..i]) == Ok(budget.View())
      invariant budget.config == config
    {
      var event := tokens[i];
      ObserveAllSnoc(config, Initial, tokens[..i], event);
      assert tokens[..i + 1] == tokens[..i] + [event];
      var observed := budget.ObserveEvent(event);
      if observed.Err? {
        PreflightedFails(config, tokens, i);
        return observed;
      }
      if event == StreamEnd {
        PreflightedEnds(config, tokens, i);
        return Finish(budget.View());
      }
    }
    NeverEnds(config, tokens);
    return Err(Malformed);
  }

  lemma NeverEnds(config: Config, tokens: seq<Event>)
    requires FirstStreamEnd(tokens) == |tokens| && ObserveAll(config, Initial, tokens[..|tokens|]).Ok?
    ensures Preflighted(config, tokens) == Err(Malformed)
  {
    hide ObserveAll, FirstStreamEnd;
  }
}
