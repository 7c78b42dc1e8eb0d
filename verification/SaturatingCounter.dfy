/**
  The lossless saturating counter: any number of threads add to one 64-bit atomic with a
  compare-and-swap loop that may fail spuriously.
 */
module SaturatingCounter {
  import opened Common

  const U64_MAX: nat := 0xFFFF_FFFF_FFFF_FFFF

  type U64 = n: nat | n <= U64_MAX

  function Cap(n: nat): nat { if n > U64_MAX then U64_MAX else n }

  /** A thread is about to read, holds the value it read, or has returned. */
  datatype Pc = Loading(delta: nat) | Trying(delta: nat, current: nat) | Done(delta: nat)

  datatype State = State(start: nat, counter: nat, threads: map<nat, Pc>)

  datatype Action =
    | Call(t: nat, delta: U64)
    | Load(t: nat)
    | Swap(t: nat, spurious: bool)

  function Next(s: State, a: Action): Option<State> {
    match a
    case Call(t, delta) =>
      if t in s.threads then None
      else Some(s.(threads := s.threads[t := if delta == 0 then Done(0) else Loading(delta)]))
    case Load(t) =>
      if t in s.threads && s.threads[t].Loading?
      then Some(s.(threads := s.threads[t := Trying(s.threads[t].delta, s.counter)]))
      else None
    case Swap(t, spurious) =>
      if t !in s.threads || !s.threads[t].Trying? then None
      else
        var Trying(delta, current) := s.threads[t];
        var next := Cap(current + delta);
        if next == current then Some(s.(threads := s.threads[t := Done(delta)]))
        else if s.counter == current && !spurious
        then Some(s.(counter := next, threads := s.threads[t := Done(delta)]))
        else Some(s.(threads := s.threads[t := Trying(delta, s.counter)]))
  }

  function Run(s: State, actions: seq<Action>): Option<State> {
    if actions == [] then Some(s)
    else
      var before :- Run(s, actions[..|actions| - 1]);
      Next(before, actions[|actions| - 1])
  }

  /** What each thread was called with. */
  function Asked(actions: seq<Action>): map<nat, nat> {
    if actions == [] then map[]
    else
      var asked, last := Asked(actions[..|actions| - 1]), actions[|actions| - 1];
      if last.Call? then asked[last.t := last.delta] else asked
  }

  function Added(pc: Pc): nat { if pc.Done? then pc.delta else 0 }

  /** Sum of the deltas of the calls that have returned. */
  ghost function Returned(m: map<nat, Pc>): nat {
    if m == map[] then 0
    else
      var t :| t in m;
      Added(m[t]) + Returned(m - {t})
  }

  lemma {:induction false} ReturnedWithout(m: map<nat, Pc>, t: nat)
    requires t in m
    ensures Returned(m) == Added(m[t]) + Returned(m - {t})
    decreases |m|
  {
    var u :| u in m && Returned(m) == Added(m[u]) + Returned(m - {u});
    if u != t {
      assert |m - {u}| < |m| by { assert (m - {u}).Keys + {u} == m.Keys; }
      assert |m - {t}| < |m| by { assert (m - {t}).Keys + {t} == m.Keys; }
      ReturnedWithout(m - {u}, t);
      ReturnedWithout(m - {t}, u);
      assert m - {u} - {t} == m - {t} - {u};
    }
  }

  lemma ReturnedUpdate(m: map<nat, Pc>, t: nat, pc: Pc)
    ensures Returned(m[t := pc]) == Returned(m - {t}) + Added(pc)
    ensures t in m ==> Returned(m) == Returned(m - {t}) + Added(m[t])
    ensures t !in m ==> Returned(m) == Returned(m - {t})
  {
    ReturnedWithout(m[t := pc], t);
    assert m[t := pc] - {t} == m - {t};
    if t in m {
      ReturnedWithout(m, t);
    } else {
      assert m - {t} == m;
    }
  }

  /** Nothing is lost; a value read earlier is never above the counter. */
  ghost predicate Invariant(s: State) {
    && s.counter == Cap(s.start + Returned(s.threads)) && s.start <= U64_MAX
    && (forall t :: t in s.threads && s.threads[t].Trying? ==> s.threads[t].current <= s.counter)
  }

  lemma NextKeeps(s: State, a: Action)
    requires Invariant(s) && Next(s, a).Some?
    ensures Invariant(Next(s, a).value) && s.counter <= Next(s, a).value.counter
  {
    var s' := Next(s, a).value;
    ReturnedUpdate(s.threads, a.t, s'.threads[a.t]);
    hide Returned;
  }

  /** Every thread runs with the delta of its own call. */
  ghost predicate AsAsked(threads: map<nat, Pc>, asked: map<nat, nat>) {
    threads.Keys == asked.Keys && forall t :: t in threads ==> threads[t].delta == asked[t]
  }

  /**
    In every interleaving, spurious failures included, the counter is the sum of its start
    value and the deltas of all calls that have returned, up to the largest 64-bit number.
   */
  lemma {:induction false} CounterIsLossless(start: U64, actions: seq<Action>)
    requires Run(State(start, start, map[]), actions).Some?
    ensures var s := Run(State(start, start, map[]), actions).value;
            && Invariant(s) && s.start == start && AsAsked(s.threads, Asked(actions))
            && var sum := start + Returned(s.threads);
            s.counter == if sum < 0x1_0000_0000_0000_0000 then sum else 0xFFFF_FFFF_FFFF_FFFF
    decreases |actions|
  {
    if actions != [] {
      CounterIsLossless(start, actions[..|actions| - 1]);
      NextKeeps(Run(State(start, start, map[]), actions[..|actions| - 1]).value, actions[|actions| - 1]);
      hide Returned, Invariant;
    }
  }

  class AtomicU64 {
    var value: nat

    constructor (value: nat)
      ensures this.value == value
    {
      this.value := value;
    }
  }

  /** The retry loop of one call; `spurious` tells which of its first swaps fail for no reason. */
  method SaturatingAddCounter(target: AtomicU64, delta: nat, spurious: seq<bool>)
    requires target.value <= U64_MAX && delta <= U64_MAX
    modifies target
    ensures target.value == Cap(old(target.value) + delta)
  {
    if delta == 0 {
      return;
    }
    var current := target.value;
    var tries := 0;
    while true
      invariant current == target.value == old(target.value) && 0 <= tries <= |spurious|
      decreases |spurious| - tries
    {
      var next := Cap(current + delta);
      if next == current {
        return;
      }
      if tries == |spurious| || !spurious[tries] {
        target.value := next;
        return;
      }
      current := target.value;
      tries := tries + 1;
    }
  }
}
