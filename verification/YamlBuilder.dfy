/**
  A second machine beside the budget.  The builder keeps whole nodes and trees and knows
  no limits; on the events of a node it computes the alias expansion of that node, and
  what it holds always spells the events it has read.
 */
module YamlBuilder {
  import opened Common
  import opened YamlEvents

  datatype Phase = Before | Inside | After

  datatype Partial = Partial(kind: Kind, anchor: nat, tag: Option<Tag>, items: seq<Node>, trees: seq<Tree>) {
    function ToTree(): Tree { Branch(kind, tag, trees) }

    function ToNode(): Node { Container(kind, tag, anchor, items) }
  }

  datatype Builder = Builder(
    phase: Phase,
    starts: nat,
    ends: nat,
    root: Option<(Node, Tree)>,
    stack: seq<Partial>,
    env: Env)
  {
    function Top(): Partial
      requires stack != []
    {
      stack[|stack| - 1]
    }

    /** The innermost container taken off and its anchor completed. */
    function Popped(): Builder
      requires stack != []
    {
      this.(stack := stack[..|stack| - 1], env := Bind(env, Top().anchor, Bound(Top().ToTree())))
    }
  }

  const Empty := Builder(Before, 0, 0, None, [], map[])

  function Extend(p: Partial, n: Node, t: Tree): Partial {
    p.(items := p.items + [n], trees := p.trees + [t])
  }

  /** A finished node goes into the innermost open container, or becomes the root. */
  function Place(b: Builder, n: Node, t: Tree): Option<Builder> {
    if b.stack == [] then
      if b.root.Some? then None else Some(b.(root := Some((n, t))))
    else
      var top := |b.stack| - 1;
      var p := b.stack[top];
      Some(b.(stack := b.stack[top := Extend(p, n, t)]))
  }

  function Enter(b: Builder, kind: Kind, anchor: nat, tag: Option<Tag>): Builder {
    b.(stack := b.stack + [Partial(kind, anchor, tag, [], [])], env := Bind(b.env, anchor, Pending))
  }

  function Leave(b: Builder, kind: Kind): Option<Builder> {
    if b.stack == [] then None
    else
      var p := b.Top();
      if p.kind != kind || (kind == Mapping && |p.items| % 2 == 1) then None
      else Place(b.Popped(), p.ToNode(), p.ToTree())
  }

  function Build(b: Builder, e: Event): Option<Builder> {
    match e
    case StreamStart => if b.phase == Before then Some(b.(starts := b.starts + 1)) else None
    case DocumentStart => if b.phase == Before then Some(b.(phase := Inside)) else None
    case DocumentEnd =>
      if b.phase == Inside && b.stack == [] && b.root.Some? then Some(b.(phase := After)) else None
    case StreamEnd => if b.phase == After then Some(b.(ends := b.ends + 1)) else None
    case ScalarEvent(v, anchor, tag) =>
      if b.phase != Inside then None
      else Place(b.(env := Bind(b.env, anchor, Bound(Leaf(v, tag)))), Scalar(v, tag, anchor), Leaf(v, tag))
    case AliasEvent(target) =>
      if b.phase == Inside && target in b.env && b.env[target].Bound?
      then Place(b, Alias(target), b.env[target].tree)
      else None
    case ContainerStart(kind, anchor, tag) =>
      if b.phase == Inside then Some(Enter(b, kind, anchor, tag)) else None
    case ContainerEnd(kind) => if b.phase == Inside then Leave(b, kind) else None
    case Nothing => None
  }

  function BuildAll(b: Builder, es: seq<Event>): Option<Builder> {
    if es == [] then Some(b)
    else
      var before :- BuildAll(b, es[..|es| - 1]);
      Build(before, es[|es| - 1])
  }

  lemma BuildAllSnoc(b: Builder, es: seq<Event>, e: Event)
    ensures BuildAll(b, es + [e]) == (var r := BuildAll(b, es); if r.Some? then Build(r.value, e) else None)
  {
    hide Build;
    assert (es + [e])[..|es|] == es;
  }

  lemma {:induction false} BuildAllConcat(b: Builder, es: seq<Event>, fs: seq<Event>)
    ensures BuildAll(b, es + fs) == (var mid := BuildAll(b, es); if mid.Some? then BuildAll(mid.value, fs) else None)
    decreases |fs|
  {
    hide Build;
    if fs == [] {
      assert es + fs == es;
    } else {
      var init := fs[..|fs| - 1];
      assert (es + fs)[..|es + fs| - 1] == es + init;
      BuildAllConcat(b, es, init);
    }
  }

  // ----- What the builder has read so far -----

  function StackEvents(stack: seq<Partial>): seq<Event> {
    if stack == [] then []
    else
      var p := stack[|stack| - 1];
      StackEvents(stack[..|stack| - 1]) + [ContainerStart(p.kind, p.anchor, p.tag)] + EventsAll(p.items)
  }

  function ReadRoot(b: Builder): seq<Event> {
    Repeat(StreamStart, b.starts) + [DocumentStart] + (if b.root.Some? then Events(b.root.value.0) else [])
  }

  function Read(b: Builder): seq<Event> {
    match b.phase
    case Before => Repeat(StreamStart, b.starts)
    case Inside => ReadRoot(b) + StackEvents(b.stack)
    case After => ReadRoot(b) + [DocumentEnd] + Repeat(StreamEnd, b.ends)
  }

  /** Shape of every builder state that can be reached. */
  ghost predicate Shaped(b: Builder) {
    && (b.phase != After ==> b.ends == 0)
    && (b.phase == Before ==> b.root.None? && b.env == map[])
    && (b.phase != Inside ==> b.stack == [])
    && (b.phase == After ==> b.root.Some?)
    && (b.root.Some? ==> WellFormed(b.root.value.0))
    && (forall i :: 0 <= i < |b.stack| ==> WellFormedAll(b.stack[i].items) && |b.stack[i].items| == |b.stack[i].trees|)
  }

  lemma PlaceReads(b: Builder, n: Node, t: Tree)
    requires Shaped(b) && b.phase == Inside && WellFormed(n) && Place(b, n, t).Some?
    ensures var b' := Place(b, n, t).value; Shaped(b') && Read(b') == Read(b) + Events(n)
  {
    PlaceShaped(b, n, t);
    hide Shaped;
    if b.stack == [] {
      assert StackEvents(b.stack) == [];
      hide StackEvents, Repeat, Events;
    } else {
      PlaceStackEvents(b, n, t);
      assert ReadRoot(Place(b, n, t).value) == ReadRoot(b);
      hide StackEvents, ReadRoot, Events;
      Regroup(ReadRoot(b), StackEvents(b.stack), Events(n));
    }
  }

  lemma PlaceShaped(b: Builder, n: Node, t: Tree)
    requires Shaped(b) && b.phase == Inside && WellFormed(n) && Place(b, n, t).Some?
    ensures Shaped(Place(b, n, t).value)
  {
    if b.stack != [] {
      EventsSnoc(b.stack[|b.stack| - 1].items, n);
    }
    hide WellFormed, WellFormedAll;
  }

  lemma PlaceStackEvents(b: Builder, n: Node, t: Tree)
    requires b.stack != []
    ensures StackEvents(Place(b, n, t).value.stack) == StackEvents(b.stack) + Events(n)
  {
    var top := |b.stack| - 1;
    var pre, p := b.stack[..top], b.stack[top];
    assert Place(b, n, t).value.stack == pre + [Extend(p, n, t)] && b.stack == pre + [p];
    EventsSnoc(p.items, n);
    hide Events, EventsAll, Place, StackEvents;
    StackEventsTop(pre, p);
    StackEventsTop(pre, Extend(p, n, t));
    Regroup(StackEvents(pre) + [ContainerStart(p.kind, p.anchor, p.tag)], EventsAll(p.items), Events(n));
  }

  lemma Regroup(a: seq<Event>, b: seq<Event>, c: seq<Event>)
    ensures a + (b + c) == a + b + c
  {
  }

  lemma StackEventsTop(stack: seq<Partial>, p: Partial)
    ensures StackEvents(stack + [p]) == StackEvents(stack) + [ContainerStart(p.kind, p.anchor, p.tag)] + EventsAll(p.items)
  {
    assert (stack + [p])[..|stack|] == stack;
    hide EventsAll;
  }

  lemma OpenReads(b: Builder, kind: Kind, anchor: nat, tag: Option<Tag>)
    requires Shaped(b) && b.phase == Inside
    ensures var b' := Enter(b, kind, anchor, tag); Shaped(b') && Read(b') == Read(b) + [ContainerStart(kind, anchor, tag)]
  {
    var b' := Enter(b, kind, anchor, tag);
    assert b'.stack[..|b.stack|] == b.stack;
    assert StackEvents(b'.stack) == StackEvents(b.stack) + [ContainerStart(kind, anchor, tag)];
  }

  lemma CloseReads(b: Builder, kind: Kind)
    requires Shaped(b) && b.phase == Inside && Leave(b, kind).Some?
    ensures var b' := Leave(b, kind).value; Shaped(b') && Read(b') == Read(b) + [ContainerEnd(kind)]
  {
    var p := b.Top();
    PoppedReads(b);
    hide Read, Shaped, Place;
    PlaceReads(b.Popped(), p.ToNode(), p.ToTree());
    assert Events(p.ToNode()) == OpenEvents(p) + [ContainerEnd(kind)];
    assert Read(b) + [ContainerEnd(kind)] == Read(b.Popped()) + (OpenEvents(p) + [ContainerEnd(kind)]);
  }

  function OpenEvents(p: Partial): seq<Event> {
    [ContainerStart(p.kind, p.anchor, p.tag)] + EventsAll(p.items)
  }

  lemma PoppedReads(b: Builder)
    requires Shaped(b) && b.phase == Inside && b.stack != []
    ensures Shaped(b.Popped()) && Read(b) == Read(b.Popped()) + OpenEvents(b.Top())
    ensures WellFormedAll(b.Top().items)
  {
    hide Repeat, EventsAll, WellFormedAll, WellFormed;
    assert StackEvents(b.stack) == StackEvents(b.Popped().stack) + OpenEvents(b.Top());
    assert ReadRoot(b.Popped()) == ReadRoot(b);
    hide StackEvents, ReadRoot;
  }

  /** One event extends what was read by exactly that event. */
  lemma BuildReads(b: Builder, e: Event)
    requires Shaped(b) && Build(b, e).Some?
    ensures var b' := Build(b, e).value; Shaped(b') && Read(b') == Read(b) + [e]
  {
    match e {
      case ScalarEvent(v, anchor, tag) =>
        hide Read, Shaped, Place;
        PlaceReads(b.(env := Bind(b.env, anchor, Bound(Leaf(v, tag)))), Scalar(v, tag, anchor), Leaf(v, tag));
      case AliasEvent(target) =>
        PlaceReads(b, Alias(target), b.env[target].tree);
      case ContainerStart(kind, anchor, tag) =>
        OpenReads(b, kind, anchor, tag);
      case ContainerEnd(kind) =>
        CloseReads(b, kind);
      case _ =>
    }
  }

  // ----- Running the builder on a serialized node -----

  /** The builder, on the events of a node, computes `Expand`. */
  lemma {:induction false} BuildNode(n: Node, b: Builder)
    requires WellFormed(n) && b.phase == Inside
    requires forall i :: 0 <= i < |b.stack| ==> |b.stack[i].items| == |b.stack[i].trees|
    ensures BuildAll(b, Events(n)) ==
            (match Expand(n, b.env)
             case None => None
             case Some((t, env)) => Place(b.(env := env), n, t))
    decreases n, 1
  {
    match n
    case Scalar(_, _, _) =>
      assert BuildAll(b, Events(n)) == Build(b, Events(n)[0]) by { BuildOne(b, Events(n)[0]); }
    case Alias(_) =>
      assert BuildAll(b, Events(n)) == Build(b, Events(n)[0]) by { BuildOne(b, Events(n)[0]); }
    case Container(kind, tag, anchor, items) =>
      BuildContainer(n, b);
  }

  lemma BuildOne(b: Builder, e: Event)
    ensures BuildAll(b, [e]) == Build(b, e)
  {
    assert [e][..0] == [];
    assert BuildAll(b, [e][..0]) == Some(b);
  }

  lemma {:induction false} BuildContainer(n: Node, b: Builder)
    requires n.Container? && WellFormed(n) && b.phase == Inside
    requires forall i :: 0 <= i < |b.stack| ==> |b.stack[i].items| == |b.stack[i].trees|
    ensures BuildAll(b, Events(n)) ==
            (match Expand(n, b.env)
             case None => None
             case Some((t, env)) => Place(b.(env := env), n, t))
    decreases n, 0
  {
    var start, end := ContainerStart(n.kind, n.anchor, n.tag), ContainerEnd(n.kind);
    var entered := Enter(b, n.kind, n.anchor, n.tag);
    BuildOne(b, start);
    BuildItems(n.items, entered);
    BuildAllConcat(b, [start], EventsAll(n.items));
    BuildAllConcat(b, [start] + EventsAll(n.items), [end]);
    var expanded := ExpandAll(n.items, entered.env);
    if expanded.Some? {
      var filled := WithItems(entered, n.items, expanded.value.0, expanded.value.1);
      BuildOne(filled, end);
      CloseFilled(n, b, expanded.value.0, expanded.value.1);
    }
  }

  /** Closing the container that was opened for `n`, once its items are in. */
  lemma CloseFilled(n: Node, b: Builder, trees: seq<Tree>, env: Env)
    requires n.Container? && WellFormed(n) && b.phase == Inside
    ensures var filled := WithItems(Enter(b, n.kind, n.anchor, n.tag), n.items, trees, env);
            var t := Branch(n.kind, n.tag, trees);
            Build(filled, ContainerEnd(n.kind)) == Place(b.(env := Bind(env, n.anchor, Bound(t))), n, t)
  {
    var filled := WithItems(Enter(b, n.kind, n.anchor, n.tag), n.items, trees, env);
    var rest := |b.stack|;
    assert filled.stack[..rest] == b.stack;
    assert filled.stack[rest] == Partial(n.kind, n.anchor, n.tag, n.items, trees);
    hide Place;
  }

  /** `b` with finished items added to its innermost container. */
  function WithItems(b: Builder, items: seq<Node>, trees: seq<Tree>, env: Env): Builder
    requires b.stack != []
  {
    var top := |b.stack| - 1;
    var p := b.stack[top];
    b.(stack := b.stack[top := p.(items := p.items + items, trees := p.trees + trees)], env := env)
  }

  lemma {:induction false} BuildItems(ns: seq<Node>, b: Builder)
    requires WellFormedAll(ns) && b.phase == Inside && b.stack != []
    requires forall i :: 0 <= i < |b.stack| ==> |b.stack[i].items| == |b.stack[i].trees|
    ensures BuildAll(b, EventsAll(ns)) ==
            (match ExpandAll(ns, b.env)
             case None => None
             case Some((ts, env)) => Some(WithItems(b, ns, ts, env)))
    decreases ns, 0
  {
    var p := b.stack[|b.stack| - 1];
    if ns == [] {
      assert p.items + [] == p.items && p.trees + [] == p.trees;
      assert WithItems(b, ns, [], b.env).stack == b.stack;
    } else {
      var init, last := ns[..|ns| - 1], ns[|ns| - 1];
      assert ns == init + [last];
      BuildItems(init, b);
      BuildAllConcat(b, EventsAll(init), Events(last));
      var expanded := ExpandAll(init, b.env);
      if expanded.Some? {
        var (ts, env) := expanded.value;
        var mid := WithItems(b, init, ts, env);
        BuildNode(last, mid);
        var rest := Expand(last, env);
        if rest.Some? {
          var (t, after) := rest.value;
          assert p.items + ns == p.items + init + [last];
          assert p.trees + (ts + [t]) == p.trees + ts + [t];
          assert Place(mid.(env := after), last, t).value.stack == WithItems(b, ns, ts + [t], after).stack;
        }
      }
    }
  }
}
