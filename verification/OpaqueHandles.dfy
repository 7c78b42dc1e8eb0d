/**
  Opaque host handles.  Every registry of the process draws its identifiers from one pool
  that only counts down, so an identifier is never used twice.
 */
module OpaqueHandles {
  import opened Common

  const U32_MAX: nat := 0xFFFF_FFFF
  const U64_MAX: nat := 0xFFFF_FFFF_FFFF_FFFF
  const ID_FLOOR: nat := 0x8000_0000
  const MAX_LIVE: nat := 64

  type Class = string
  type Payload = nat

  datatype Entry = Entry(class_: Class, payload: Payload, generation: nat)

  datatype Registry = Registry(byId: map<nat, Entry>, generation: nat)

  /** A handle as the host keeps it; its identifier is what a script can pass back. */
  datatype Handle = Handle(registry: nat, id: nat, class_: Class, generation: nat)

  datatype OpaqueError = LiveHandleLimit | IdSpaceExhausted

  // ----- Operations on values -----

  function Allocate(next: nat): Option<nat> { if next < ID_FLOOR then None else Some(next) }

  function After(id: nat): nat { if id == 0 then 0 else id - 1 }

  function SaturatingInc(g: nat): nat { if g >= U64_MAX then U64_MAX else g + 1 }

  /** The registry with one more entry. */
  function Insert(r: Registry, id: nat, class_: Class, payload: Payload): Registry {
    var g := SaturatingInc(r.generation);
    Registry(r.byId[id := Entry(class_, payload, g)], g)
  }

  function Without(r: Registry, id: nat): Registry { r.(byId := r.byId - {id}) }

  function Emptied(r: Registry): Registry { r.(byId := map[]) }

  predicate Contains(r: Registry, id: nat, generation: nat, class_: Class) {
    id in r.byId && r.byId[id].generation == generation && r.byId[id].class_ == class_
  }

  // ----- All registries of a process -----

  datatype State = State(next: nat, registries: map<nat, Registry>, minted: seq<Handle>)

  const Start := State(U32_MAX, map[], [])

  datatype Action =
    | Create(registry: nat)
    | Mint(registry: nat, class_: Class, payload: Payload)
    | Revoke(registry: nat, id: nat)
    | Clear(registry: nat)
    | Drop(registry: nat)

  function MintIn(s: State, r: nat, class_: Class, payload: Payload): State
    requires r in s.registries
  {
    var reg := s.registries[r];
    if |reg.byId| >= MAX_LIVE || Allocate(s.next).None? then s
    else
      var grown := Insert(reg, s.next, class_, payload);
      State(After(s.next), s.registries[r := grown], s.minted + [Handle(r, s.next, class_, grown.generation)])
  }

  function Next(s: State, a: Action): Option<State> {
    if a.Create? then
      if a.registry in s.registries then None else Some(s.(registries := s.registries[a.registry := Registry(map[], 0)]))
    else if a.registry !in s.registries then None
    else
      var reg := s.registries[a.registry];
      match a
      case Mint(r, class_, payload) => Some(MintIn(s, r, class_, payload))
      case Revoke(r, id) => Some(s.(registries := s.registries[r := Without(reg, id)]))
      case Clear(r) => Some(s.(registries := s.registries[r := Emptied(reg)]))
      case Drop(r) => Some(s.(registries := s.registries - {r}))
  }

  function Run(s: State, actions: seq<Action>): Option<State> {
    if actions == [] then Some(s)
    else
      var before :- Run(s, actions[..|actions| - 1]);
      Next(before, actions[|actions| - 1])
  }

  /** The identifier names an entry of some registry. */
  predicate Live(s: State, id: nat) { exists r :: r in s.registries && id in s.registries[r].byId }

  /** A host value still gives its payload. */
  predicate Resolves(s: State, h: Handle) {
    h.registry in s.registries && Contains(s.registries[h.registry], h.id, h.generation, h.class_)
  }

  /** An entry was minted, in the registry that has it. */
  ghost predicate Minted(s: State, r: nat, reg: Registry, id: nat) {
    && s.next < id <= U32_MAX && U32_MAX - id < |s.minted|
    && var h := s.minted[U32_MAX - id]; h.registry == r && Contains(reg, id, h.generation, h.class_)
  }

  ghost predicate RegistryOk(s: State, r: nat, reg: Registry) {
    && |reg.byId| <= MAX_LIVE && reg.generation <= |s.minted|
    && (forall id :: id in reg.byId ==> Minted(s, r, reg, id))
  }

  /** Identifiers go down one by one. */
  ghost predicate PoolOk(s: State) {
    && ID_FLOOR - 1 <= s.next <= U32_MAX && |s.minted| == U32_MAX - s.next
    && (forall i :: 0 <= i < |s.minted| ==> s.minted[i].id == U32_MAX - i)
  }

  ghost predicate Invariant(s: State) {
    PoolOk(s) && forall r :: r in s.registries ==> RegistryOk(s, r, s.registries[r])
  }

  lemma SizeAfterInsert(m: map<nat, Entry>, id: nat, e: Entry)
    requires id !in m
    ensures |m[id := e]| == |m| + 1
  {
    assert m[id := e].Keys == m.Keys + {id};
  }

  lemma {:induction false} SizeAfterRemove(m: map<nat, Entry>, id: nat)
    ensures |m - {id}| <= |m|
  {
    if id in m {
      assert m.Keys == (m - {id}).Keys + {id};
    } else {
      assert m - {id} == m;
    }
  }

  lemma InsertKeeps(s: State, r: nat, reg: Registry, class_: Class, payload: Payload)
    requires PoolOk(s) && RegistryOk(s, r, reg) && |reg.byId| < MAX_LIVE && ID_FLOOR <= s.next
    ensures var grown := Insert(reg, s.next, class_, payload);
            var s' := s.(next := After(s.next), minted := s.minted + [Handle(r, s.next, class_, grown.generation)]);
            PoolOk(s') && RegistryOk(s', r, grown)
  {
    assert s.next !in reg.byId;
    SizeAfterInsert(reg.byId, s.next, Entry(class_, payload, SaturatingInc(reg.generation)));
    var grown := Insert(reg, s.next, class_, payload);
    var s' := s.(next := After(s.next), minted := s.minted + [Handle(r, s.next, class_, grown.generation)]);
    forall id | id in grown.byId
      ensures Minted(s', r, grown, id)
    {
      if id != s.next {
        assert Minted(s, r, reg, id);
      }
    }
  }

  /** More handles minted elsewhere do not touch a registry. */
  lemma OthersKeep(s: State, q: nat, reg: Registry, h: Handle)
    requires PoolOk(s) && RegistryOk(s, q, reg) && ID_FLOOR <= s.next
    ensures RegistryOk(s.(next := After(s.next), minted := s.minted + [h]), q, reg)
  {
    var s' := s.(next := After(s.next), minted := s.minted + [h]);
    forall id | id in reg.byId
      ensures Minted(s', q, reg, id)
    {
      assert Minted(s, q, reg, id);
    }
  }

  lemma SubRegistryOk(s: State, r: nat, reg: Registry, smaller: Registry)
    requires RegistryOk(s, r, reg) && |smaller.byId| <= |reg.byId| && smaller.generation == reg.generation
    requires forall id :: id in smaller.byId ==> id in reg.byId && smaller.byId[id] == reg.byId[id]
    ensures RegistryOk(s, r, smaller)
  {
    forall id | id in smaller.byId
      ensures Minted(s, r, smaller, id)
    {
      assert Minted(s, r, reg, id);
    }
  }

  /** Whether a registry is in order depends on the pool and the history only. */
  lemma RegistryFrame(s: State, s': State, r: nat, reg: Registry)
    requires RegistryOk(s, r, reg) && s'.next == s.next && s'.minted == s.minted
    ensures RegistryOk(s', r, reg)
  {
    forall id | id in reg.byId
      ensures Minted(s', r, reg, id)
    {
      assert Minted(s, r, reg, id);
    }
  }

  lemma MintKeeps(s: State, r: nat, class_: Class, payload: Payload)
    requires Invariant(s) && r in s.registries
    ensures Invariant(MintIn(s, r, class_, payload))
  {
    var reg := s.registries[r];
    if |reg.byId| < MAX_LIVE && ID_FLOOR <= s.next {
      hide RegistryOk, PoolOk, Insert;
      var s' := MintIn(s, r, class_, payload);
      var grown := Insert(reg, s.next, class_, payload);
      var h := Handle(r, s.next, class_, grown.generation);
      var moved := s.(next := After(s.next), minted := s.minted + [h]);
      InsertKeeps(s, r, reg, class_, payload);
      PoolFrame(moved, s');
      forall q | q in s'.registries
        ensures RegistryOk(s', q, s'.registries[q])
      {
        if q != r {
          OthersKeep(s, q, s.registries[q], h);
        }
        RegistryFrame(moved, s', q, s'.registries[q]);
      }
    }
  }

  lemma PoolFrame(s: State, s': State)
    requires PoolOk(s) && s'.next == s.next && s'.minted == s.minted
    ensures PoolOk(s')
  {
  }

  lemma NextKeeps(s: State, a: Action)
    requires Invariant(s) && Next(s, a).Some?
    ensures Invariant(Next(s, a).value)
  {
    var s' := Next(s, a).value;
    if a.Mint? {
      MintKeeps(s, a.registry, a.class_, a.payload);
    } else {
      PoolFrame(s, s');
      forall q | q in s'.registries
        ensures RegistryOk(s', q, s'.registries[q])
      {
        if q in s.registries {
          if a.Revoke? {
            SizeAfterRemove(s.registries[q].byId, a.id);
          }
          SubRegistryOk(s, q, s.registries[q], s'.registries[q]);
          RegistryFrame(s, s', q, s'.registries[q]);
        }
      }
    }
  }

  lemma {:induction false} RunKeeps(actions: seq<Action>)
    requires Run(Start, actions).Some?
    ensures Invariant(Run(Start, actions).value)
    decreases |actions|
  {
    hide Next;
    if actions != [] {
      RunKeeps(actions[..|actions| - 1]);
      NextKeeps(Run(Start, actions[..|actions| - 1]).value, actions[|actions| - 1]);
    }
  }

  ghost predicate Reachable(s: State) { exists actions :: Run(Start, actions) == Some(s) }

  lemma ReachableInvariant(s: State)
    requires Reachable(s)
    ensures Invariant(s)
  {
    var actions :| Run(Start, actions) == Some(s);
    RunKeeps(actions);
  }

  /**
    In every run, over any number of registries: minted identifiers are pairwise distinct and
    in the reserved upper half, and no registry has more than 64 live entries.
   */
  lemma IdentifiersAreUnique(s: State)
    requires Reachable(s)
    ensures forall i, k :: 0 <= i < k < |s.minted| ==> s.minted[i].id != s.minted[k].id
    ensures forall i :: 0 <= i < |s.minted| ==> 0x8000_0000 <= s.minted[i].id <= 0xFFFF_FFFF
    ensures forall r :: r in s.registries ==> |s.registries[r].byId| <= 64
    ensures forall r, q, id | r in s.registries && q in s.registries && id in s.registries[r].byId && r != q ::
              id !in s.registries[q].byId
  {
    ReachableInvariant(s);
    forall r, q, id | r in s.registries && q in s.registries && id in s.registries[r].byId && id in s.registries[q].byId
      ensures r == q
    {
      assert Minted(s, r, s.registries[r], id) && Minted(s, q, s.registries[q], id);
    }
  }

  lemma DeadStep(s: State, id: nat, a: Action)
    requires s.next < id && !Live(s, id) && Next(s, a).Some?
    ensures Next(s, a).value.next < id && !Live(Next(s, a).value, id)
  {
  }

  /** An identifier that is used up and gone never names an entry of any registry again. */
  lemma {:induction false} DeadStaysDead(s: State, id: nat, actions: seq<Action>)
    requires s.next < id && !Live(s, id) && Run(s, actions).Some?
    ensures var s' := Run(s, actions).value; s'.next < id && !Live(s', id)
    decreases |actions|
  {
    hide Next;
    if actions != [] {
      DeadStaysDead(s, id, actions[..|actions| - 1]);
      DeadStep(Run(s, actions[..|actions| - 1]).value, id, actions[|actions| - 1]);
    }
  }

  predicate Removes(a: Action, h: Handle) {
    a == Revoke(h.registry, h.id) || a == Clear(h.registry) || a == Drop(h.registry)
  }

  /** A minted identifier names an entry only in the registry that minted it. */
  lemma OnlyInOwnRegistry(s: State, h: Handle, q: nat)
    requires Invariant(s) && h in s.minted && q in s.registries
    ensures s.next < h.id
    ensures h.id in s.registries[q].byId ==> q == h.registry
  {
    var i :| 0 <= i < |s.minted| && s.minted[i] == h;
    assert h.id == U32_MAX - i && s.minted[U32_MAX - h.id] == h;
    assert RegistryOk(s, q, s.registries[q]);
  }

  lemma RemovalKills(s: State, h: Handle, a: Action)
    requires Invariant(s) && h in s.minted && Removes(a, h) && Next(s, a).Some?
    ensures Next(s, a).value.next < h.id && !Live(Next(s, a).value, h.id)
  {
    OnlyInOwnRegistry(s, h, h.registry);
    hide Invariant;
    var gone := Next(s, a).value;
    forall q | q in gone.registries
      ensures h.id !in gone.registries[q].byId
    {
      OnlyInOwnRegistry(s, h, q);
    }
  }

  /** A revoked, cleared or dropped handle never resolves again, whatever happens later. */
  lemma RevokedNeverResolves(s: State, h: Handle, a: Action, actions: seq<Action>)
    requires Reachable(s) && h in s.minted && Removes(a, h)
    requires Next(s, a).Some? && Run(Next(s, a).value, actions).Some?
    ensures var s' := Run(Next(s, a).value, actions).value; !Live(s', h.id) && !Resolves(s', h)
  {
    ReachableInvariant(s);
    RemovalKills(s, h, a);
    hide Next, Invariant, Removes;
    DeadStaysDead(Next(s, a).value, h.id, actions);
  }

  /**
    A mint succeeds until the registry is full or the pool is used up.  The handle resolves
    at once, to its own payload and under the next generation.
   */
  lemma FreshHandleResolves(s: State, r: nat, class_: Class, payload: Payload)
    requires Reachable(s) && r in s.registries
    ensures var minted := Next(s, Mint(r, class_, payload));
            if |s.registries[r].byId| < 64 && 0x8000_0000 <= s.next then
              && minted.Some? && |minted.value.minted| == |s.minted| + 1
              && var s' := minted.value;
              var h := s'.minted[|s.minted|];
              && h == Handle(r, s.next, class_, s.registries[r].generation + 1) && Resolves(s', h)
              && s'.registries[r].byId[h.id].payload == payload
              && (forall k :: 0 <= k < |s.minted| && Resolves(s, s.minted[k]) ==> Resolves(s', s.minted[k]))
            else minted == Some(s)
  {
    hide Invariant, Resolves, Reachable;
    ReachableInvariant(s);
    GenerationFits(s, r);
    if |s.registries[r].byId| < 64 && 0x8000_0000 <= s.next {
      OldHandlesResolve(s, r, class_, payload);
      NewHandleResolves(s, r, class_, payload);
    }
  }

  lemma GenerationFits(s: State, r: nat)
    requires Invariant(s) && r in s.registries
    ensures s.registries[r].generation < U64_MAX
  {
    assert RegistryOk(s, r, s.registries[r]);
  }

  lemma NewHandleResolves(s: State, r: nat, class_: Class, payload: Payload)
    requires r in s.registries && |s.registries[r].byId| < MAX_LIVE && ID_FLOOR <= s.next
    ensures var s' := MintIn(s, r, class_, payload);
            Resolves(s', Handle(r, s.next, class_, SaturatingInc(s.registries[r].generation)))
  {
  }

  lemma OldHandlesResolve(s: State, r: nat, class_: Class, payload: Payload)
    requires Invariant(s) && r in s.registries
    ensures var s' := MintIn(s, r, class_, payload);
            forall k :: 0 <= k < |s.minted| && Resolves(s, s.minted[k]) ==> Resolves(s', s.minted[k])
  {
    hide Invariant, Resolves, MintIn;
    forall k | 0 <= k < |s.minted| && Resolves(s, s.minted[k])
      ensures Resolves(MintIn(s, r, class_, payload), s.minted[k])
    {
      OldHandleResolves(s, r, class_, payload, s.minted[k]);
    }
  }

  /** A new registry has no handle, not even of an earlier one in its place, and its first generation is 1. */
  lemma NewRegistryIsEmpty(s: State, r: nat, class_: Class, payload: Payload)
    requires r !in s.registries && 0x8000_0000 <= s.next
    ensures var created := Next(s, Create(r));
            && created.Some?
            && (forall h :: Resolves(created.value, h) <==> Resolves(s, h))
            && var minted := Next(created.value, Mint(r, class_, payload));
            && minted.Some? && |minted.value.minted| == |s.minted| + 1
            && minted.value.minted[|s.minted|] == Handle(r, s.next, class_, 1)
  {
  }

  lemma OldHandleResolves(s: State, r: nat, class_: Class, payload: Payload, h: Handle)
    requires Invariant(s) && r in s.registries && Resolves(s, h)
    ensures Resolves(MintIn(s, r, class_, payload), h)
  {
    assert RegistryOk(s, h.registry, s.registries[h.registry]);
    assert Minted(s, h.registry, s.registries[h.registry], h.id);
    hide Invariant, RegistryOk;
  }

  // ----- The registry object -----

  class IdPool {
    var next: nat

    constructor ()
      ensures next == U32_MAX
    {
      next := U32_MAX;
    }

    method AllocatePrototypeId() returns (r: Option<nat>)
      modifies this
      ensures r == Allocate(old(next))
      ensures next == if r.Some? then After(r.value) else old(next)
    {
      if next < ID_FLOOR {
        return None;
      }
      r := Some(next);
      next := After(next);
    }
  }

  class OpaqueRegistry {
    const pool: IdPool
    var byId: map<nat, Entry>
    var generation: nat

    constructor (pool: IdPool)
      ensures this.pool == pool && View() == Registry(map[], 0)
    {
      this.pool, byId, generation := pool, map[], 0;
    }

    function View(): Registry
      reads this
    {
      Registry(byId, generation)
    }

    method MintHandle(class_: Class, payload: Payload) returns (r: Result<(nat, nat), OpaqueError>)
      modifies this, pool
      ensures r.Ok? <==> |old(byId)| < MAX_LIVE && ID_FLOOR <= old(pool.next)
      ensures r.Ok? ==> View() == Insert(old(View()), old(pool.next), class_, payload) && pool.next == After(old(pool.next))
                        && r.value == (old(pool.next), generation) && Contains(View(), r.value.0, r.value.1, class_)
      ensures r.Err? ==> View() == old(View()) && pool.next == old(pool.next)
                         && r.error == if |old(byId)| < MAX_LIVE then IdSpaceExhausted else LiveHandleLimit
    {
      if |byId| >= MAX_LIVE {
        return Err(LiveHandleLimit);
      }
      var id := pool.AllocatePrototypeId();
      if id.None? {
        return Err(IdSpaceExhausted);
      }
      generation := SaturatingInc(generation);
      byId := byId[id.value := Entry(class_, payload, generation)];
      return Ok((id.value, generation));
    }

    method RevokeHandle(id: nat)
      modifies this`byId
      ensures View() == Without(old(View()), id)
      ensures forall generation, class_ :: !Contains(View(), id, generation, class_)
    {
      byId := byId - {id};
    }

    method ClearAll()
      modifies this`byId
      ensures View() == Emptied(old(View()))
      ensures forall id, generation, class_ :: !Contains(View(), id, generation, class_)
    {
      byId := map[];
    }
  }
}
