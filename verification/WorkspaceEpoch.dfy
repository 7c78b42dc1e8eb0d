/**
  Reload and workspace admission of the auth host.

  Any number of threads run `reload` at once: each takes a generation, builds a snapshot
  without a lock, and publishes it under the lock unless a newer one is already there.
  Runs bound earlier keep their snapshot and are checked against the epoch.
 */
module WorkspaceEpoch {
  import opened Common

  const U64: nat := 0x1_0000_0000_0000_0000

  /** Where a thread is inside `reload`. */
  datatype Pc =
    | Idle
    | Taken(generation: nat)
    | Built(generation: nat)
    | Holding(generation: nat)
    | EpochStored(generation: nat)

  datatype Owner = Owner(generation: nat, active: bool)

  datatype State = State(
    next: nat,
    published: nat,
    epoch: nat,
    lock: Option<nat>,
    threads: map<nat, Pc>,
    cloned: map<nat, nat>,
    owners: map<nat, Owner>)

  const Start := State(2, 1, 1, None, map[], map[], map[])

  function PcOf(s: State, t: nat): Pc { if t in s.threads then s.threads[t] else Idle }

  function Move(s: State, t: nat, pc: Pc): State { s.(threads := s.threads[t := pc]) }

  datatype Action =
    | Take(t: nat)
    | Build(t: nat, ok: bool)
    | Acquire(t: nat)
    | Compare(t: nat)
    | Publish(t: nat)
    | Clone(owner: nat)
    | Install(owner: nat)
    | Deactivate(owner: nat)

  function Next(s: State, a: Action): Option<State> {
    match a
    case Take(t) =>
      // The counter is a 64-bit atomic: it wraps around.
      if PcOf(s, t) == Idle then Some(Move(s.(next := (s.next + 1) % U64), t, Taken(s.next))) else None
    case Build(t, ok) =>
      if PcOf(s, t).Taken? then Some(Move(s, t, if ok then Built(PcOf(s, t).generation) else Idle)) else None
    case Acquire(t) =>
      if PcOf(s, t).Built? && s.lock.None? then Some(Move(s.(lock := Some(t)), t, Holding(PcOf(s, t).generation))) else None
    case Compare(t) =>
      if !PcOf(s, t).Holding? then None
      else
        var g := PcOf(s, t).generation;
        if g <= s.published then Some(Move(s.(lock := None), t, Idle))
        else Some(Move(s.(epoch := g), t, EpochStored(g)))
    case Publish(t) =>
      if PcOf(s, t).EpochStored?
      then Some(Move(s.(published := PcOf(s, t).generation, lock := None), t, Idle))
      else None
    case Clone(o) =>
      // Binding clones the published snapshot under the lock ...
      if s.lock.None? && o !in s.owners && o !in s.cloned then Some(s.(cloned := s.cloned[o := s.published])) else None
    case Install(o) =>
      // ... and builds the owner after the lock is released.
      if o in s.cloned then Some(s.(cloned := s.cloned - {o}, owners := s.owners[o := Owner(s.cloned[o], true)])) else None
    case Deactivate(o) =>
      if o in s.owners then Some(s.(owners := s.owners[o := s.owners[o].(active := false)])) else None
  }

  /** The workspace check of a bound run. */
  predicate Passes(s: State, o: nat) {
    o in s.owners && s.owners[o].active && s.epoch == s.owners[o].generation
  }

  function Run(s: State, actions: seq<Action>): Option<State> {
    if actions == [] then Some(s)
    else
      var before :- Run(s, actions[..|actions| - 1]);
      Next(before, actions[|actions| - 1])
  }

  /** The epoch runs ahead of the published snapshot only while its writer holds the lock. */
  ghost predicate LockOk(s: State) {
    && s.published <= s.epoch
    && (s.lock.None? ==> s.epoch == s.published)
    && (forall t :: t in s.threads && (s.threads[t].Holding? || s.threads[t].EpochStored?) ==> s.lock == Some(t))
    && (s.lock.Some? ==> s.lock.value in s.threads)
    && (s.lock.Some? && s.threads[s.lock.value].Holding? ==> s.epoch == s.published)
    && (s.lock.Some? ==> s.threads[s.lock.value].Holding? || s.threads[s.lock.value].EpochStored?)
    && (s.lock.Some? && s.threads[s.lock.value].EpochStored? ==> s.epoch == s.threads[s.lock.value].generation > s.published)
  }

  /** Nobody has a generation that is not published yet. */
  ghost predicate OwnersOk(s: State) {
    && (forall o :: o in s.owners ==> s.owners[o].generation <= s.published)
    && (forall o :: o in s.cloned ==> s.cloned[o] <= s.published && o !in s.owners)
  }

  ghost predicate Invariant(s: State) { LockOk(s) && OwnersOk(s) }

  lemma NextKeepsLock(s: State, a: Action)
    requires LockOk(s) && Next(s, a).Some?
    ensures LockOk(Next(s, a).value)
    ensures s.published <= Next(s, a).value.published && s.epoch <= Next(s, a).value.epoch
  {
  }

  lemma NextKeeps(s: State, a: Action)
    requires Invariant(s) && Next(s, a).Some?
    ensures Invariant(Next(s, a).value)
    ensures s.published <= Next(s, a).value.published && s.epoch <= Next(s, a).value.epoch
    ensures forall o :: o in s.owners ==>
              o in Next(s, a).value.owners && Next(s, a).value.owners[o].generation == s.owners[o].generation
              && (Next(s, a).value.owners[o].active ==> s.owners[o].active)
  {
    NextKeepsLock(s, a);
    hide LockOk;
  }

  lemma {:induction false} RunKeeps(s: State, actions: seq<Action>)
    requires Invariant(s) && Run(s, actions).Some?
    ensures var s' := Run(s, actions).value;
            && Invariant(s') && s.published <= s'.published && s.epoch <= s'.epoch
            && forall o :: o in s.owners ==> o in s'.owners && s'.owners[o].generation == s.owners[o].generation
                                             && (s'.owners[o].active ==> s.owners[o].active)
    decreases |actions|
  {
    hide Next, Invariant;
    if actions != [] {
      RunKeeps(s, actions[..|actions| - 1]);
      NextKeeps(Run(s, actions[..|actions| - 1]).value, actions[|actions| - 1]);
    }
  }

  ghost predicate Reachable(s: State) { exists actions :: Run(Start, actions) == Some(s) }

  lemma ReachableInvariant(s: State)
    requires Reachable(s)
    ensures Invariant(s)
  {
    var actions :| Run(Start, actions) == Some(s);
    RunKeeps(Start, actions);
  }

  /**
    In every interleaving: the published generation never decreases, the epoch equals it
    whenever the lock is free, and a run passes the check only on the newest generation.
   */
  lemma PublicationIsMonotone(s: State, actions: seq<Action>)
    requires Reachable(s) && Run(s, actions).Some?
    ensures var s' := Run(s, actions).value;
            && s.published <= s'.published
            && (s'.lock.None? ==> s'.epoch == s'.published)
            && (forall o :: Passes(s', o) ==> s'.owners[o].generation == s'.published == s'.epoch)
  {
    ReachableInvariant(s);
    RunKeeps(s, actions);
  }

  /** A run whose generation was superseded never passes the workspace check again. */
  lemma SupersededStaysOut(s: State, o: nat, actions: seq<Action>)
    requires Reachable(s) && o in s.owners && Run(s, actions).Some?
    requires s.owners[o].generation < s.epoch || !s.owners[o].active
    ensures !Passes(Run(s, actions).value, o)
  {
    ReachableInvariant(s);
    RunKeeps(s, actions);
  }

  lemma StepKeepsClone(s: State, o: nat, a: Action)
    requires o in s.cloned && Next(s, a).Some? && a != Install(o)
    ensures o in Next(s, a).value.cloned && Next(s, a).value.cloned[o] == s.cloned[o]
  {
  }

  lemma {:induction false} CloneStays(s: State, o: nat, actions: seq<Action>)
    requires o in s.cloned && Run(s, actions).Some? && Install(o) !in actions
    ensures var s' := Run(s, actions).value; o in s'.cloned && s'.cloned[o] == s.cloned[o]
    decreases |actions|
  {
    hide Next;
    if actions != [] {
      var init, last := actions[..|actions| - 1], actions[|actions| - 1];
      CloneStays(s, o, init);
      StepKeepsClone(Run(s, init).value, o, last);
    }
  }

  /**
    Between the clone of the snapshot and the owner that is built from it anything can
    happen.  The new owner passes the check if and only if no reload has stored its epoch
    since; once no reload holds the lock, if and only if nothing was published since.
   */
  lemma BoundOwnerIsCurrent(s: State, o: nat, actions: seq<Action>)
    requires Reachable(s) && Next(s, Clone(o)).Some? && Install(o) !in actions
    requires Run(Next(s, Clone(o)).value, actions).Some?
    ensures var mid := Run(Next(s, Clone(o)).value, actions).value;
            var r := Next(mid, Install(o));
            && r.Some? && r.value.owners[o] == Owner(s.published, true)
            && (Passes(r.value, o) <==> mid.epoch == s.epoch)
            && (mid.lock.None? ==> (Passes(r.value, o) <==> mid.published == s.published))
  {
    ReachableInvariant(s);
    var cloned := Next(s, Clone(o)).value;
    NextKeeps(s, Clone(o));
    CloneStays(cloned, o, actions);
    RunKeeps(cloned, actions);
    hide Run;
  }

  /** A reload that reaches its publication leaves its own generation or a newer one. */
  lemma ReloadPublishesAtLeast(s: State, t: nat, a: Action)
    requires Reachable(s) && a in [Compare(t), Publish(t)] && Next(s, a).Some?
    requires PcOf(Next(s, a).value, t) == Idle
    ensures PcOf(s, t).generation <= Next(s, a).value.published
    ensures Next(s, a).value.lock.None?
  {
    ReachableInvariant(s);
  }

  // ----- The host object, one call at a time -----

  /** The part of the state that one host object holds. */
  datatype Host = Host(next: nat, published: nat, epoch: nat)

  function HostOf(s: State): Host { Host(s.next, s.published, s.epoch) }

  /** A whole reload; `ok`: the new snapshot could be loaded. */
  function Reloaded(h: Host, ok: bool): (r: (Host, Result<nat, ()>))
    ensures r.1.Ok? <==> ok
    ensures ok ==> r.1.value == r.0.published == Larger(h.next, h.published)
    ensures !ok ==> r.0 == h.(next := (h.next + 1) % 0x1_0000_0000_0000_0000)
  {
    var counted := h.(next := (h.next + 1) % U64);
    if !ok then (counted, Err(()))
    else if h.next <= h.published then (counted, Ok(h.published))
    else (counted.(epoch := h.next, published := h.next), Ok(h.next))
  }

  function Larger(a: nat, b: nat): nat { if a > b then a else b }

  class AuthHost {
    var nextGeneration: nat
    var published: nat
    var workspaceEpoch: nat

    function View(): Host
      reads this
    {
      Host(nextGeneration, published, workspaceEpoch)
    }

    constructor ()
      ensures View() == HostOf(Start)
    {
      nextGeneration, published, workspaceEpoch := 2, 1, 1;
    }

    method Reload(ok: bool) returns (r: Result<nat, ()>)
      modifies this
      ensures (View(), r) == Reloaded(old(View()), ok)
    {
      var generation := nextGeneration;
      nextGeneration := (nextGeneration + 1) % U64;
      if !ok {
        return Err(());
      }
      if generation <= published {
        return Ok(published);
      }
      workspaceEpoch := generation;
      published := generation;
      return Ok(generation);
    }
  }

  /** The steps of one thread's reload that starts in `s`. */
  function ReloadSteps(s: State, t: nat, ok: bool): seq<Action> {
    if !ok then [Take(t), Build(t, false)]
    else if s.next <= s.published then [Take(t), Build(t, true), Acquire(t), Compare(t)]
    else [Take(t), Build(t, true), Acquire(t), Compare(t), Publish(t)]
  }

  /**
    The reload of one thread, uninterrupted, is the reload of the host object: it ends idle
    with the lock free, whether the snapshot loads, comes too late or is published.
   */
  lemma ReloadAlone(s: State, t: nat, ok: bool)
    requires PcOf(s, t) == Idle && s.lock.None?
    ensures var r := Run(s, ReloadSteps(s, t, ok));
            && r.Some? && HostOf(r.value) == Reloaded(HostOf(s), ok).0
            && r.value.lock.None? && PcOf(r.value, t) == Idle && r.value.owners == s.owners && r.value.cloned == s.cloned
  {
    if ok {
      LoadedReload(s, t);
    } else {
      RunTwo(s, Take(t), Build(t, false));
    }
    hide Run;
  }

  lemma LoadedReload(s: State, t: nat)
    requires PcOf(s, t) == Idle && s.lock.None?
    ensures var r := Run(s, ReloadSteps(s, t, true));
            && r.Some? && HostOf(r.value) == Reloaded(HostOf(s), true).0
            && r.value.lock.None? && PcOf(r.value, t) == Idle && r.value.owners == s.owners && r.value.cloned == s.cloned
  {
    hide Run;
    var head := [Take(t), Build(t, true)];
    RunTwo(s, Take(t), Build(t, true));
    RunMore(s, head, Acquire(t), Compare(t));
    assert head + [Acquire(t), Compare(t)] == [Take(t), Build(t, true), Acquire(t), Compare(t)];
    if s.next > s.published {
      RunSnoc(s, head + [Acquire(t), Compare(t)], Publish(t));
      assert head + [Acquire(t), Compare(t)] + [Publish(t)]
          == [Take(t), Build(t, true), Acquire(t), Compare(t), Publish(t)];
    }
  }

  function Then(o: Option<State>, a: Action): Option<State> { if o.Some? then Next(o.value, a) else None }

  lemma RunSnoc(s: State, actions: seq<Action>, a: Action)
    ensures Run(s, actions + [a]) == Then(Run(s, actions), a)
  {
    hide Next;
    assert (actions + [a])[..|actions|] == actions;
  }

  lemma RunMore(s: State, actions: seq<Action>, a: Action, b: Action)
    ensures Run(s, actions + [a, b]) == Then(Then(Run(s, actions), a), b)
  {
    hide Run, Next;
    RunSnoc(s, actions, a);
    RunSnoc(s, actions + [a], b);
    assert actions + [a] + [b] == actions + [a, b];
  }

  lemma RunTwo(s: State, a: Action, b: Action)
    ensures Run(s, [a, b]) == Then(Next(s, a), b)
  {
    assert Run(s, []) == Some(s);
    hide Run, Next;
    RunMore(s, [], a, b);
    assert [] + [a, b] == [a, b];
  }
}
