/**
  The run-scoped artifact store under concurrent use.

  `put`, `put_result` and the retraction of a result each consist of several lock sections.
  Every section is one atomic step of the machine below; any number of processes may be
  between sections.
 */
module ArtifactStore {
  import opened Common

  datatype Limits = Limits(maxObjectBytes: nat, maxTotalBytes: nat, maxObjects: nat)

  /** The call that a result belongs to; generic objects belong to none. */
  datatype Call = Call(generation: nat, callId: string)

  datatype Object = Object(call: Option<Call>, length: nat)

  type Id = nat

  type Objects = map<Id, Object>

  // ----- The key under which a call is claimed -----

  function Decimal(n: nat): string {
    if n < 10 then [('0' as int + n) as char] else Decimal(n / 10) + [('0' as int + n % 10) as char]
  }

  predicate IsDigit(c: char) { '0' <= c <= '9' }

  function ParseDecimal(s: string): int {
    if s == [] then 0 else ParseDecimal(s[..|s| - 1]) * 10 + (s[|s| - 1] as int - '0' as int)
  }

  lemma {:induction false} DecimalReads(n: nat)
    ensures ParseDecimal(Decimal(n)) == n
    ensures forall i :: 0 <= i < |Decimal(n)| ==> IsDigit(Decimal(n)[i])
  {
    if n < 10 {
      assert Decimal(n)[..0] == [];
      assert ParseDecimal(Decimal(n)[..0]) == 0;
    } else {
      DecimalReads(n / 10);
      assert Decimal(n)[..|Decimal(n)| - 1] == Decimal(n / 10);
    }
  }

  function CallKey(c: Call): string { Decimal(c.generation) + ":" + c.callId }

  lemma PrefixEnds(x: string, rest: string, y: string, other: string)
    requires x + ":" + rest == y + ":" + other
    requires forall i :: 0 <= i < |y| ==> IsDigit(y[i])
    ensures |y| <= |x|
  {
    var s := x + ":" + rest;
    assert s[|x|] == ':';
    assert forall i :: 0 <= i < |y| ==> s[i] == y[i];
  }

  /** Two calls share a key only if they are the same call of the same generation. */
  lemma CallKeyInjective(a: Call, b: Call)
    requires CallKey(a) == CallKey(b)
    ensures a == b
  {
    var x, y := Decimal(a.generation), Decimal(b.generation);
    DecimalReads(a.generation);
    DecimalReads(b.generation);
    assert |x| == |y| by {
      PrefixEnds(x, a.callId, y, b.callId);
      PrefixEnds(y, b.callId, x, a.callId);
    }
    assert x == CallKey(a)[..|x|] == y;
    assert a.callId == CallKey(a)[|x| + 1..] == b.callId;
  }

  // ----- Sum of the stored lengths -----

  ghost function StoredBytes(m: Objects): nat {
    if m == map[] then 0
    else
      var id :| id in m;
      m[id].length + StoredBytes(m - {id})
  }

  lemma {:induction false} StoredBytesWithout(m: Objects, id: Id)
    requires id in m
    ensures StoredBytes(m) == m[id].length + StoredBytes(m - {id})
    decreases |m|
  {
    var other :| other in m && StoredBytes(m) == m[other].length + StoredBytes(m - {other});
    if other != id {
      assert |m - {other}| < |m| by { assert (m - {other}).Keys + {other} == m.Keys; }
      assert |m - {id}| < |m| by { assert (m - {id}).Keys + {id} == m.Keys; }
      StoredBytesWithout(m - {other}, id);
      StoredBytesWithout(m - {id}, other);
      assert m - {other} - {id} == m - {id} - {other};
    }
  }

  lemma StoredBytesWith(m: Objects, id: Id, o: Object)
    requires id !in m
    ensures StoredBytes(m[id := o]) == StoredBytes(m) + o.length && |m[id := o]| == |m| + 1
  {
    StoredBytesWithout(m[id := o], id);
    assert m[id := o] - {id} == m;
    assert m[id := o].Keys == m.Keys + {id};
  }

  // ----- The machine -----

  /** A result's guard: retraction first marks it, then removes the object, then frees the key. */
  datatype Stage = Live | Marked | Removed | Freed

  datatype Guard = Guard(call: Call, length: nat, stage: Stage)

  datatype Pc =
    | Idle
    | Claimed(call: Call, length: nat)
    | Refused(call: Call)
    | Placed(id: Id)
    | Rollback(id: Id)
    | Removing(id: Id)
    | Freeing(id: Id)

  datatype State = State(
    objects: Objects,
    total: nat,
    keys: set<string>,
    guards: map<Id, Guard>,
    used: set<Id>,
    procs: map<nat, Pc>)

  const Start := State(map[], 0, {}, map[], {}, map[])

  datatype Action =
    | Put(id: Id, length: nat)
    | Claim(p: nat, call: Call, length: nat)
    | Store(p: nat, id: Id)
    | Unclaim(p: nat)
    | Register(p: nat, ok: bool)
    | BeginRetract(p: nat, id: Id)
    | Remove(p: nat)
    | Free(p: nat)

  function PcOf(s: State, p: nat): Pc { if p in s.procs then s.procs[p] else Idle }

  function Move(s: State, p: nat, pc: Pc): State { s.(procs := s.procs[p := pc]) }

  function SaturatingSub(a: nat, b: nat): nat { if b <= a then a - b else 0 }

  /** The quota test, made while both the object and the total lock are held. */
  predicate Admits(l: Limits, objects: Objects, total: nat, length: nat) {
    length <= l.maxObjectBytes && |objects| < l.maxObjects && total + length <= l.maxTotalBytes
  }

  function Insert(s: State, id: Id, o: Object): State {
    s.(objects := s.objects[id := o], total := s.total + o.length, used := s.used + {id})
  }

  function Next(l: Limits, s: State, a: Action): Option<State> {
    match a
    case Put(id, length) =>
      // A random identifier is new.
      if id in s.used then None
      else if Admits(l, s.objects, s.total, length) then Some(Insert(s, id, Object(None, length)))
      else Some(s)
    case Claim(p, call, length) =>
      if PcOf(s, p) != Idle then None
      else if CallKey(call) in s.keys then Some(s)
      else Some(Move(s.(keys := s.keys + {CallKey(call)}), p, Claimed(call, length)))
    case Store(p, id) =>
      if !PcOf(s, p).Claimed? || id in s.used then None
      else
        var Claimed(call, length) := PcOf(s, p);
        if Admits(l, s.objects, s.total, length)
        then Some(Move(Insert(s, id, Object(Some(call), length)).(guards := s.guards[id := Guard(call, length, Live)]), p, Placed(id)))
        else Some(Move(s, p, Refused(call)))
    case Unclaim(p) =>
      if PcOf(s, p).Refused? then Some(Move(s.(keys := s.keys - {CallKey(PcOf(s, p).call)}), p, Idle)) else None
    case Register(p, ok) =>
      if PcOf(s, p).Placed? then Some(Move(s, p, if ok then Idle else Rollback(PcOf(s, p).id))) else None
    case BeginRetract(p, id) =>
      if id !in s.guards || (PcOf(s, p) != Idle && PcOf(s, p) != Rollback(id)) then None
      else if s.guards[id].stage != Live then Some(Move(s, p, Idle))
      else Some(Move(s.(guards := s.guards[id := s.guards[id].(stage := Marked)]), p, Removing(id)))
    case Remove(p) =>
      if !PcOf(s, p).Removing? || PcOf(s, p).id !in s.guards then None
      else
        var id := PcOf(s, p).id;
        var g := s.guards[id];
        var total := if id in s.objects then SaturatingSub(s.total, g.length) else s.total;
        Some(Move(s.(objects := s.objects - {id}, total := total, guards := s.guards[id := g.(stage := Removed)]), p, Freeing(id)))
    case Free(p) =>
      if !PcOf(s, p).Freeing? || PcOf(s, p).id !in s.guards then None
      else
        var id := PcOf(s, p).id;
        var g := s.guards[id];
        Some(Move(s.(keys := s.keys - {CallKey(g.call)}, guards := s.guards[id := g.(stage := Freed)]), p, Idle))
  }

  function Run(l: Limits, s: State, actions: seq<Action>): Option<State> {
    if actions == [] then Some(s)
    else
      var before :- Run(l, s, actions[..|actions| - 1]);
      Next(l, before, actions[|actions| - 1])
  }

  // ----- Invariant -----

  ghost predicate Quotas(l: Limits, s: State) {
    && s.total == StoredBytes(s.objects) && s.total <= l.maxTotalBytes && |s.objects| <= l.maxObjects
    && (forall id :: id in s.objects ==> s.objects[id].length <= l.maxObjectBytes && id in s.used)
  }

  /** A guard has its object until the object is removed, and the other way round. */
  ghost predicate GuardsMatch(s: State) {
    && (forall id :: id in s.guards ==> id in s.used)
    && (forall id :: id in s.guards && (s.guards[id].stage == Live || s.guards[id].stage == Marked) ==>
          id in s.objects && s.objects[id] == Object(Some(s.guards[id].call), s.guards[id].length))
    && (forall id :: id in s.objects && s.objects[id].call.Some? ==>
          id in s.guards && (s.guards[id].stage == Live || s.guards[id].stage == Marked))
  }

  predicate Holding(pc: Pc) { pc.Claimed? || pc.Refused? }

  predicate Unfreed(g: Guard) { g.stage != Freed }

  /** A key is held by one process that is storing, or by one guard that is not freed. */
  ghost predicate KeysHeldOnce(s: State) {
    && (forall p :: p in s.procs && Holding(s.procs[p]) ==> CallKey(s.procs[p].call) in s.keys)
    && (forall i :: i in s.guards && Unfreed(s.guards[i]) ==> CallKey(s.guards[i].call) in s.keys)
    && (forall p, q | p in s.procs && q in s.procs && Holding(s.procs[p]) && Holding(s.procs[q]) && p != q ::
          CallKey(s.procs[p].call) != CallKey(s.procs[q].call))
    && (forall i, k | i in s.guards && k in s.guards && Unfreed(s.guards[i]) && Unfreed(s.guards[k]) && i != k ::
          CallKey(s.guards[i].call) != CallKey(s.guards[k].call))
    && (forall p, i | p in s.procs && i in s.guards && Holding(s.procs[p]) && Unfreed(s.guards[i]) ::
          CallKey(s.procs[p].call) != CallKey(s.guards[i].call))
  }

  /** Each marked guard is being retracted by exactly one process. */
  ghost predicate RetractedOnce(s: State) {
    && (forall p :: p in s.procs && s.procs[p].Removing? ==>
          s.procs[p].id in s.guards && s.guards[s.procs[p].id].stage == Marked)
    && (forall p :: p in s.procs && s.procs[p].Freeing? ==>
          s.procs[p].id in s.guards && s.guards[s.procs[p].id].stage == Removed)
    && (forall p, q | p in s.procs && q in s.procs && s.procs[p].Removing? && s.procs[q].Removing? && p != q ::
          s.procs[p].id != s.procs[q].id)
    && (forall p, q | p in s.procs && q in s.procs && s.procs[p].Freeing? && s.procs[q].Freeing? && p != q ::
          s.procs[p].id != s.procs[q].id)
  }

  ghost predicate Invariant(l: Limits, s: State) {
    Quotas(l, s) && GuardsMatch(s) && KeysHeldOnce(s) && RetractedOnce(s)
  }

  lemma InsertKeepsQuotas(l: Limits, s: State, id: Id, o: Object)
    requires Quotas(l, s) && id !in s.used && Admits(l, s.objects, s.total, o.length)
    ensures Quotas(l, Insert(s, id, o))
  {
    StoredBytesWith(s.objects, id, o);
    hide StoredBytes;
  }

  lemma RemoveKeepsQuotas(l: Limits, s: State, p: nat)
    requires Invariant(l, s) && Next(l, s, Remove(p)).Some?
    ensures Quotas(l, Next(l, s, Remove(p)).value)
    ensures var id := PcOf(s, p).id;
            id in s.objects && Next(l, s, Remove(p)).value.total == s.total - s.objects[id].length
  {
    var id := PcOf(s, p).id;
    assert p in s.procs && s.guards[id].stage == Marked;
    hide KeysHeldOnce;
    assert id in s.objects && s.objects[id].length == s.guards[id].length;
    StoredBytesWithout(s.objects, id);
    hide StoredBytes, GuardsMatch, RetractedOnce;
    assert s.objects.Keys == (s.objects - {id}).Keys + {id};
  }

  lemma QuotasKept(l: Limits, s: State, a: Action)
    requires Invariant(l, s) && Next(l, s, a).Some?
    ensures Quotas(l, Next(l, s, a).value)
  {
    hide KeysHeldOnce, GuardsMatch, RetractedOnce, CallKey, StoredBytes;
    match a {
      case Put(id, length) =>
        if Admits(l, s.objects, s.total, length) {
          InsertKeepsQuotas(l, s, id, Object(None, length));
        }
      case Store(p, id) =>
        if Admits(l, s.objects, s.total, PcOf(s, p).length) {
          InsertKeepsQuotas(l, s, id, Object(Some(PcOf(s, p).call), PcOf(s, p).length));
        }
      case Remove(p) => RemoveKeepsQuotas(l, s, p);
      case _ =>
    }
  }

  lemma GuardsMatchKept(l: Limits, s: State, a: Action)
    requires Invariant(l, s) && Next(l, s, a).Some?
    ensures GuardsMatch(Next(l, s, a).value)
  {
    hide KeysHeldOnce, CallKey, StoredBytes;
  }

  lemma ClaimKeepsKeys(l: Limits, s: State, a: Action)
    requires Invariant(l, s) && a.Claim? && Next(l, s, a).Some?
    ensures KeysHeldOnce(Next(l, s, a).value)
  {
    hide CallKey, StoredBytes, Quotas, GuardsMatch, RetractedOnce;
  }

  /** A claim passes from the process to the new guard. */
  lemma HandOver(s: State, p: nat, id: Id, g: Guard)
    requires KeysHeldOnce(s) && p in s.procs && Holding(s.procs[p]) && s.procs[p].call == g.call && id !in s.guards
    ensures KeysHeldOnce(s.(guards := s.guards[id := g], procs := s.procs[p := Placed(id)]))
  {
    hide CallKey;
  }

  lemma StoreKeepsKeys(l: Limits, s: State, a: Action)
    requires Invariant(l, s) && a.Store? && Next(l, s, a).Some?
    ensures KeysHeldOnce(Next(l, s, a).value)
  {
    var Claimed(call, length) := PcOf(s, a.p);
    assert a.id !in s.guards;
    if Admits(l, s.objects, s.total, length) {
      HandOver(s, a.p, a.id, Guard(call, length, Live));
    }
    hide CallKey, StoredBytes, Quotas, GuardsMatch, RetractedOnce, Admits;
  }

  lemma UnclaimKeepsKeys(l: Limits, s: State, a: Action)
    requires Invariant(l, s) && a.Unclaim? && Next(l, s, a).Some?
    ensures KeysHeldOnce(Next(l, s, a).value)
  {
    hide CallKey, StoredBytes, Quotas, GuardsMatch, RetractedOnce;
  }

  /** A step that takes no key and gives none back keeps the claims apart. */
  lemma SameClaims(s: State, s': State)
    requires KeysHeldOnce(s) && s'.keys == s.keys
    requires forall p :: p in s'.procs && Holding(s'.procs[p]) ==> p in s.procs && s.procs[p] == s'.procs[p]
    requires forall i :: i in s'.guards && Unfreed(s'.guards[i]) ==>
               i in s.guards && Unfreed(s.guards[i]) && s.guards[i].call == s'.guards[i].call
    ensures KeysHeldOnce(s')
  {
    hide CallKey;
  }

  lemma RegisterKeepsKeys(l: Limits, s: State, a: Action)
    requires Invariant(l, s) && a.Register? && Next(l, s, a).Some?
    ensures KeysHeldOnce(Next(l, s, a).value)
  {
    hide CallKey, StoredBytes, Quotas, GuardsMatch, KeysHeldOnce, RetractedOnce;
    SameClaims(s, Next(l, s, a).value);
  }

  lemma BeginKeepsKeys(l: Limits, s: State, a: Action)
    requires Invariant(l, s) && a.BeginRetract? && Next(l, s, a).Some?
    ensures KeysHeldOnce(Next(l, s, a).value)
  {
    hide CallKey, StoredBytes, Quotas, GuardsMatch, KeysHeldOnce, RetractedOnce;
    SameClaims(s, Next(l, s, a).value);
  }

  lemma RemoveKeepsKeys(l: Limits, s: State, a: Action)
    requires Invariant(l, s) && a.Remove? && Next(l, s, a).Some?
    ensures KeysHeldOnce(Next(l, s, a).value)
  {
    assert a.p in s.procs && s.guards[s.procs[a.p].id].stage == Marked;
    hide CallKey, StoredBytes, Quotas, GuardsMatch, KeysHeldOnce, RetractedOnce;
    SameClaims(s, Next(l, s, a).value);
  }

  function FreedGuard(s: State, id: Id): State
    requires id in s.guards
  {
    s.(keys := s.keys - {CallKey(s.guards[id].call)}, guards := s.guards[id := s.guards[id].(stage := Freed)])
  }

  lemma GiveBack(s: State, id: Id)
    requires KeysHeldOnce(s) && id in s.guards && Unfreed(s.guards[id])
    ensures KeysHeldOnce(FreedGuard(s, id))
  {
    hide CallKey;
  }

  lemma FreeKeepsKeys(l: Limits, s: State, a: Action)
    requires Invariant(l, s) && a.Free? && Next(l, s, a).Some?
    ensures KeysHeldOnce(Next(l, s, a).value)
  {
    assert a.p in s.procs && s.guards[s.procs[a.p].id].stage == Removed;
    hide CallKey, StoredBytes, Quotas, GuardsMatch, RetractedOnce, KeysHeldOnce;
    GiveBack(s, s.procs[a.p].id);
    SameClaims(FreedGuard(s, s.procs[a.p].id), Next(l, s, a).value);
  }

  lemma KeysKept(l: Limits, s: State, a: Action)
    requires Invariant(l, s) && Next(l, s, a).Some?
    ensures KeysHeldOnce(Next(l, s, a).value)
  {
    match a
    case Put(_, _) =>
    case Claim(_, _, _) => ClaimKeepsKeys(l, s, a);
    case Store(_, _) => StoreKeepsKeys(l, s, a);
    case Unclaim(_) => UnclaimKeepsKeys(l, s, a);
    case Free(_) => FreeKeepsKeys(l, s, a);
    case Register(_, _) => RegisterKeepsKeys(l, s, a);
    case BeginRetract(_, _) => BeginKeepsKeys(l, s, a);
    case Remove(_) => RemoveKeepsKeys(l, s, a);
  }

  lemma RetractedOnceKept(l: Limits, s: State, a: Action)
    requires Invariant(l, s) && Next(l, s, a).Some?
    ensures RetractedOnce(Next(l, s, a).value)
  {
    match a
    case Store(_, _) => StoreKeepsRetractions(l, s, a);
    case BeginRetract(_, _) => RetractKeepsRetractions(l, s, a);
    case Remove(_) => RetractKeepsRetractions(l, s, a);
    case Free(_) => RetractKeepsRetractions(l, s, a);
    case _ =>
      hide KeysHeldOnce, CallKey, StoredBytes, Quotas, GuardsMatch, RetractedOnce;
      SameRetractions(s, Next(l, s, a).value);
  }

  lemma RetractKeepsRetractions(l: Limits, s: State, a: Action)
    requires Invariant(l, s) && (a.BeginRetract? || a.Remove? || a.Free?) && Next(l, s, a).Some?
    ensures RetractedOnce(Next(l, s, a).value)
  {
    hide KeysHeldOnce, CallKey, StoredBytes, Quotas, GuardsMatch;
  }

  lemma StoreKeepsRetractions(l: Limits, s: State, a: Action)
    requires Invariant(l, s) && a.Store? && Next(l, s, a).Some?
    ensures RetractedOnce(Next(l, s, a).value)
  {
    assert a.id !in s.guards;
    hide KeysHeldOnce, CallKey, StoredBytes, Quotas, GuardsMatch, Admits;
    SameRetractions(s, Next(l, s, a).value);
  }

  lemma SameRetractions(s: State, s': State)
    requires RetractedOnce(s)
    requires forall p :: p in s'.procs && (s'.procs[p].Removing? || s'.procs[p].Freeing?) ==>
               p in s.procs && s.procs[p] == s'.procs[p]
    requires forall i :: i in s.guards ==> i in s'.guards && s'.guards[i] == s.guards[i]
    ensures RetractedOnce(s')
  {
  }

  lemma {:induction false} RunKeeps(l: Limits, actions: seq<Action>)
    requires Run(l, Start, actions).Some?
    ensures Invariant(l, Run(l, Start, actions).value)
    decreases |actions|
  {
    hide Next, Quotas, GuardsMatch, KeysHeldOnce, RetractedOnce;
    if actions == [] {
      StartHolds(l);
    } else {
      var init, last := actions[..|actions| - 1], actions[|actions| - 1];
      RunKeeps(l, init);
      var s := Run(l, Start, init).value;
      QuotasKept(l, s, last);
      GuardsMatchKept(l, s, last);
      KeysKept(l, s, last);
      RetractedOnceKept(l, s, last);
    }
  }

  lemma StartHolds(l: Limits)
    ensures Invariant(l, Start)
  {
    assert StoredBytes(map[]) == 0;
  }

  ghost predicate Reachable(l: Limits, s: State) { exists actions :: Run(l, Start, actions) == Some(s) }

  lemma ReachableInvariant(l: Limits, s: State)
    requires Reachable(l, s)
    ensures Invariant(l, s)
  {
    var actions :| Run(l, Start, actions) == Some(s);
    RunKeeps(l, actions);
  }

  /**
    Under every interleaving the byte counter is the sum of the stored lengths, all quotas
    hold, and no call of a generation has two live results.
   */
  lemma StoreStaysWithinQuotas(l: Limits, s: State)
    requires Reachable(l, s)
    ensures s.total == StoredBytes(s.objects) <= l.maxTotalBytes && |s.objects| <= l.maxObjects
    ensures forall id :: id in s.objects ==> s.objects[id].length <= l.maxObjectBytes
    ensures forall i, k | i in s.objects && k in s.objects && s.objects[i].call.Some? && i != k ::
              s.objects[i].call != s.objects[k].call
  {
    ReachableInvariant(l, s);
    forall i, k | i in s.objects && k in s.objects && s.objects[i].call.Some? && s.objects[i].call == s.objects[k].call
      ensures i == k
    {
      assert s.guards[i].call == s.guards[k].call && Unfreed(s.guards[i]) && Unfreed(s.guards[k]);
      hide CallKey, StoredBytes;
    }
  }

  /** A live result's key stays claimed, so a second publication of the call is refused. */
  lemma SecondPublicationRefused(l: Limits, s: State, id: Id, p: nat, length: nat)
    requires Reachable(l, s) && id in s.objects && s.objects[id].call.Some? && PcOf(s, p) == Idle
    ensures Next(l, s, Claim(p, s.objects[id].call.value, length)) == Some(s)
  {
    ReachableInvariant(l, s);
    assert Unfreed(s.guards[id]);
    hide CallKey, StoredBytes;
  }

  /**
    A retraction takes effect once: the section that removes the object finds it there and
    gives back exactly its length; a second retraction changes nothing but its own process.
   */
  lemma RetractionTakesEffectOnce(l: Limits, s: State, p: nat, id: Id)
    requires Reachable(l, s)
    ensures PcOf(s, p) == Removing(id) ==>
              id in s.objects && Next(l, s, Remove(p)).Some?
              && Next(l, s, Remove(p)).value.total == s.total - s.objects[id].length
              && Next(l, s, Remove(p)).value.objects == s.objects - {id}
    ensures id in s.guards && s.guards[id].stage != Live && Next(l, s, BeginRetract(p, id)).Some? ==>
              Next(l, s, BeginRetract(p, id)) == Some(Move(s, p, Idle))
  {
    ReachableInvariant(l, s);
    if PcOf(s, p) == Removing(id) {
      assert p in s.procs;
      RemoveKeepsQuotas(l, s, p);
    }
  }

  /** Because random identifiers are new, one that was used and is gone never comes back. */
  lemma {:induction false} RemovedStaysOut(l: Limits, s: State, id: Id, actions: seq<Action>)
    requires id in s.used && id !in s.objects && Run(l, s, actions).Some?
    ensures var s' := Run(l, s, actions).value; id in s'.used && id !in s'.objects
    decreases |actions|
  {
    hide Next;
    if actions != [] {
      RemovedStaysOut(l, s, id, actions[..|actions| - 1]);
      UsedStaysOut(l, Run(l, s, actions[..|actions| - 1]).value, id, actions[|actions| - 1]);
    }
  }

  lemma UsedStaysOut(l: Limits, s: State, id: Id, a: Action)
    requires id in s.used && id !in s.objects && Next(l, s, a).Some?
    ensures id in Next(l, s, a).value.used && id !in Next(l, s, a).value.objects
  {
    hide CallKey;
  }

  // ----- The store object, one call at a time -----

  datatype StoreError = TooLarge | Exhausted | AlreadyPublished | RegistrationFailed

  class ArtifactCapability {
    const limits: Limits
    var objects: Objects
    var totalBytes: nat
    var resultCalls: set<string>

    ghost predicate Valid()
      reads this
    {
      && totalBytes == StoredBytes(objects) <= limits.maxTotalBytes && |objects| <= limits.maxObjects
      && forall id :: id in objects ==> objects[id].length <= limits.maxObjectBytes
    }

    constructor (limits: Limits)
      ensures Valid() && this.limits == limits && objects == map[] && resultCalls == {}
    {
      this.limits := limits;
      objects, totalBytes, resultCalls := map[], 0, {};
      new;
      StartHolds(limits);
    }

    method StoreBytes(call: Option<Call>, length: nat, id: Id) returns (r: Result<(), StoreError>)
      requires Valid() && id !in objects
      modifies this`objects, this`totalBytes
      ensures Valid()
      ensures r.Ok? <==> Admits(limits, old(objects), old(totalBytes), length)
      ensures r.Ok? ==> objects == old(objects)[id := Object(call, length)] && totalBytes == old(totalBytes) + length
      ensures r.Err? ==> objects == old(objects) && totalBytes == old(totalBytes)
      ensures r.Err? ==> (r.error == TooLarge <==> length > limits.maxObjectBytes)
    {
      if length > limits.maxObjectBytes {
        return Err(TooLarge);
      }
      if |objects| >= limits.maxObjects || totalBytes + length > limits.maxTotalBytes {
        return Err(Exhausted);
      }
      StoredBytesWith(objects, id, Object(call, length));
      objects := objects[id := Object(call, length)];
      totalBytes := totalBytes + length;
      return Ok(());
    }

    /** Publish at most one result for a call; a failed publication leaves no trace. */
    method PutResult(call: Call, length: nat, id: Id, registered: bool) returns (r: Result<ResultArtifactGuard, StoreError>)
      requires Valid() && id !in objects
      modifies this`objects, this`totalBytes, this`resultCalls
      ensures Valid()
      ensures r.Ok? <==> CallKey(call) !in old(resultCalls) && registered
                         && Admits(limits, old(objects), old(totalBytes), length)
      ensures r.Ok? ==> objects == old(objects)[id := Object(Some(call), length)]
                        && resultCalls == old(resultCalls) + {CallKey(call)}
                        && fresh(r.value) && r.value.id == id && r.value.call == call && !r.value.released
      ensures r.Err? ==> objects == old(objects) && totalBytes == old(totalBytes) && resultCalls == old(resultCalls)
    {
      hide StoredBytes, CallKey;
      var key := CallKey(call);
      if key in resultCalls {
        return Err(AlreadyPublished);
      }
      resultCalls := resultCalls + {key};
      var stored := StoreBytes(Some(call), length, id);
      if stored.Err? {
        resultCalls := resultCalls - {key};
        return Err(stored.error);
      }
      var guard := new ResultArtifactGuard(id, call, length);
      if !registered {
        guard.Retract(this);
        assert objects == old(objects);
        return Err(RegistrationFailed);
      }
      return Ok(guard);
    }
  }

  class ResultArtifactGuard {
    const id: Id
    const call: Call
    const length: nat
    var released: bool

    constructor (id: Id, call: Call, length: nat)
      ensures this.id == id && this.call == call && this.length == length && !released
    {
      this.id, this.call, this.length, released := id, call, length, false;
    }

    /** Removes the object and frees its call, the first time only. */
    method Retract(store: ArtifactCapability)
      requires store.Valid()
      requires id in store.objects ==> store.objects[id].length == length
      modifies this`released, store`objects, store`totalBytes, store`resultCalls
      ensures store.Valid() && released
      ensures old(released) ==> store.objects == old(store.objects) && store.resultCalls == old(store.resultCalls)
                                && store.totalBytes == old(store.totalBytes)
      ensures !old(released) ==> store.objects == old(store.objects) - {id}
                                 && store.resultCalls == old(store.resultCalls) - {CallKey(call)}
      ensures !old(released) && id in old(store.objects) ==> store.totalBytes == old(store.totalBytes) - length
    {
      hide CallKey;
      if released {
        return;
      }
      released := true;
      if id in store.objects {
        StoredBytesWithout(store.objects, id);
        hide StoredBytes;
        assert store.objects.Keys == (store.objects - {id}).Keys + {id};
        store.objects := store.objects - {id};
        store.totalBytes := SaturatingSub(store.totalBytes, length);
      }
      assert store.objects == old(store.objects) - {id};
      store.resultCalls := store.resultCalls - {CallKey(call)};
    }
  }
}
