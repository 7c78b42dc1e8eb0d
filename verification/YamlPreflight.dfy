/** The preflight as a whole: which event streams of a parser it accepts. */
module YamlPreflight {
  import opened Common
  import opened YamlEvents
  import opened YamlBudget
  import opened YamlBuilder
  import opened YamlErrors
  import opened YamlTheorems

  // ----- The preflight loop reads up to the end of the stream -----

  lemma {:induction false} NodeHasNoStreamEnd(n: Node)
    ensures StreamEnd !in Events(n)
    decreases n, 1
  {
    if n.Container? {
      ItemsHaveNoStreamEnd(n.items);
    }
  }

  lemma {:induction false} ItemsHaveNoStreamEnd(ns: seq<Node>)
    ensures StreamEnd !in EventsAll(ns)
    decreases ns, 0
  {
    if ns != [] {
      ItemsHaveNoStreamEnd(ns[..|ns| - 1]);
      NodeHasNoStreamEnd(ns[|ns| - 1]);
    }
  }

  lemma {:induction false} RepeatIs(e: Event, k: nat)
    ensures |Repeat(e, k)| == k && forall i :: 0 <= i < k ==> Repeat(e, k)[i] == e
  {
    if k > 0 {
      RepeatIs(e, k - 1);
    }
  }

  function Body(starts: nat, n: Node): seq<Event> {
    Repeat(StreamStart, starts) + [DocumentStart] + Events(n) + [DocumentEnd]
  }

  lemma BodyHasNoStreamEnd(starts: nat, n: Node)
    ensures StreamEnd !in Body(starts, n) && Body(starts, n)[|Body(starts, n)| - 1] == DocumentEnd
  {
    NodeHasNoStreamEnd(n);
    RepeatIs(StreamStart, starts);
    hide Repeat, Events;
  }

  lemma FirstEndAfterBody(starts: nat, n: Node, ends: nat)
    ensures FirstStreamEnd(DocumentEvents(starts, n, ends)) == |Body(starts, n)|
    ensures |DocumentEvents(starts, n, ends)| == |Body(starts, n)| + ends
  {
    BodyHasNoStreamEnd(starts, n);
    RepeatIs(StreamEnd, ends);
    var es, m := DocumentEvents(starts, n, ends), |Body(starts, n)|;
    assert es == Body(starts, n) + Repeat(StreamEnd, ends);
    hide Repeat, Body, DocumentEvents;
    assert forall i :: 0 <= i < m ==> es[i] == Body(starts, n)[i] && es[i] in Body(starts, n);
    assert ends > 0 ==> es[m] == Repeat(StreamEnd, ends)[0];
  }

  lemma FirstEndOfPrefix(es: seq<Event>, k: nat)
    requires k == FirstStreamEnd(es) < |es|
    ensures FirstStreamEnd(es[..k + 1]) == k
  {
    var cut := es[..k + 1];
    assert cut[k] == StreamEnd;
    assert forall i :: 0 <= i < k ==> cut[i] != StreamEnd;
  }

  lemma FirstEndOfDocument(starts: nat, n: Node, tokens: seq<Event>)
    requires DocumentEvents(starts, n, 1) <= tokens
    ensures FirstStreamEnd(tokens) + 1 == |DocumentEvents(starts, n, 1)|
  {
    FirstEndAfterBody(starts, n, 1);
    var es, k := DocumentEvents(starts, n, 1), |Body(starts, n)|;
    hide Body, DocumentEvents;
    assert tokens[k] == es[k];
    assert forall i :: 0 <= i < k ==> tokens[i] == es[i];
  }

  ghost predicate BeginsWith(c: Config, tokens: seq<Event>, starts: nat, n: Node) {
    WellFormed(n) && DocumentEvents(starts, n, 1) <= tokens
    && Expand(n, map[]).Some? && Fits(c, Expand(n, map[]).value.0)
  }

  /**
    The preflight accepts the events of a text exactly when they begin with one document,
    with resolvable aliases and an expansion within the limits, and the end of the stream.
   */
  lemma PreflightAccepts(c: Config, tokens: seq<Event>)
    requires c.Valid()
    ensures Preflighted(c, tokens).Ok? <==> exists starts, n :: BeginsWith(c, tokens, starts, n)
  {
    var k := FirstStreamEnd(tokens);
    assert Preflighted(c, tokens).Ok? <==> k < |tokens| && Accepts(c, tokens[..k + 1]) by {
      hide ObserveAll, FirstStreamEnd;
    }
    hide Accepts, BeginsWith, Preflighted;
    if k < |tokens| && Accepts(c, tokens[..k + 1]) {
      var starts, n := AcceptedBegins(c, tokens);
    }
    forall starts, n | BeginsWith(c, tokens, starts, n)
      ensures k < |tokens| && Accepts(c, tokens[..k + 1])
    {
      BeginningAccepted(c, tokens, starts, n);
    }
  }

  lemma AcceptedBegins(c: Config, tokens: seq<Event>) returns (starts: nat, n: Node)
    requires c.Valid() && FirstStreamEnd(tokens) < |tokens| && Accepts(c, tokens[..FirstStreamEnd(tokens) + 1])
    ensures BeginsWith(c, tokens, starts, n)
  {
    hide Accepts, Expand, Fits, DocumentEvents, WellFormed;
    var k := FirstStreamEnd(tokens);
    var es := tokens[..k + 1];
    AcceptedLanguage(c, es);
    var ends: nat;
    starts, n, ends :|
      IsDocument(es, starts, n, ends) && Expand(n, map[]).Some? && Fits(c, Expand(n, map[]).value.0);
    FirstEndOfPrefix(tokens, k);
    hide FirstStreamEnd, Body;
    FirstEndAfterBody(starts, n, ends);
  }

  lemma BeginningAccepted(c: Config, tokens: seq<Event>, starts: nat, n: Node)
    requires c.Valid() && BeginsWith(c, tokens, starts, n)
    ensures var k := FirstStreamEnd(tokens); k < |tokens| && Accepts(c, tokens[..k + 1])
  {
    hide Accepts, Expand, Fits, DocumentEvents, WellFormed, FirstStreamEnd;
    FirstEndOfDocument(starts, n, tokens);
    assert tokens[..FirstStreamEnd(tokens) + 1] == DocumentEvents(starts, n, 1);
    BudgetDecidesDocument(c, starts, n, 1);
  }

  /**
    When the events begin with a document whose aliases resolve, a refusal by the preflight
    names a limit that the expansion of the document exceeds.
   */
  lemma PreflightRefusalIsJustified(c: Config, tokens: seq<Event>, starts: nat, n: Node)
    requires c.Valid() && WellFormed(n) && DocumentEvents(starts, n, 1) <= tokens && Expand(n, map[]).Some?
    ensures var t, r := Expand(n, map[]).value.0, Preflighted(c, tokens);
            r.Err? ==> Exceeds(c, r.error, Nodes(t), ByteSize(c.layout, t), Depth(t))
  {
    hide Accepts, Expand, DocumentEvents, WellFormed, FirstStreamEnd, ObserveAll, Exceeds, Nodes, ByteSize, Depth;
    var es := DocumentEvents(starts, n, 1);
    FirstEndOfDocument(starts, n, tokens);
    assert tokens[..FirstStreamEnd(tokens) + 1] == es;
    DocumentRefusalIsJustified(c, starts, n, 1, es);
    if ObserveAll(c, Initial, es).Ok? {
      DocumentFinishes(c, starts, n);
    }
  }

  lemma DocumentFinishes(c: Config, starts: nat, n: Node)
    requires c.Valid() && WellFormed(n) && Expand(n, map[]).Some?
    requires ObserveAll(c, Initial, DocumentEvents(starts, n, 1)).Ok?
    ensures Finish(ObserveAll(c, Initial, DocumentEvents(starts, n, 1)).value).Ok?
  {
    hide ObserveAll, DocumentEvents, Expand, WellFormed, BuildAll;
    AcceptedPrefixIsMeasured(c, DocumentEvents(starts, n, 1));
    BuildDocument(starts, n, 1);
  }
}
