/**
  The resource arena of a VM as a value: what the parts of a response add to it, and what
  closing, revoking and withdrawing them leaves behind.
 */
module SecretStore {
  import opened Common

  const LIMIT: nat := 64

  type Handle = nat
  type OwnerId = nat
  type SlotId = nat
  type RunId = string
  type CredentialId = string

  /** What a native flow was made for; it never changes. */
  datatype Binding = Binding(policy: nat, run: RunId, credential: CredentialId)

  /** A flow of the OAuth host: a device session, or the pair promoted from one. */
  datatype Native = Native(id: nat, binding: Binding)

  /** A bound owner with its frozen snapshot: generations and admitted credentials. */
  datatype Owner = Owner(
    id: OwnerId,
    run: RunId,
    policy: nat,
    oauth: bool,
    generations: map<CredentialId, nat>,
    admits: set<CredentialId>)

  /** Whom a call acts for, with which credential. */
  datatype Scope = Scope(owner: Owner, credential: CredentialId) {
    function Bond(): Binding { Binding(owner.policy, owner.run, credential) }

    function Generation(): nat { if credential in owner.generations then owner.generations[credential] else 0 }

    predicate Admitted() { credential in owner.admits }
  }

  /** What a device resource was issued for. */
  datatype Grant = Grant(credential: CredentialId, policy: nat, generation: nat)

  datatype Resource =
    | SecretSlot(owner: OwnerId, slot: SlotId)
    | DeviceSession(owner: OwnerId, device: Native, grant: Grant)
    | Code(owner: OwnerId, flow: Native)
    | Verifier(owner: OwnerId, flow: Native)
    | Callback(owner: OwnerId, flow: Native)
    | Token(owner: OwnerId)
    | Policy(owner: OwnerId)

  /** The type key under which a resource is closed. */
  datatype Kind = SlotKind | DeviceKind | CodeKind | VerifierKind | CallbackKind | TokenKind | PolicyKind

  function KindOf(r: Resource): Kind {
    match r
    case SecretSlot(_, _) => SlotKind
    case DeviceSession(_, _, _) => DeviceKind
    case Code(_, _) => CodeKind
    case Verifier(_, _) => VerifierKind
    case Callback(_, _) => CallbackKind
    case Token(_) => TokenKind
    case Policy(_) => PolicyKind
  }

  /** Something that can be used once, or until it is revoked. */
  datatype Secret = Slot(slot: SlotId) | Session(device: Native) | Flow(flow: Native)

  /** What closing a resource makes unusable.  A callback's flow is revoked by its rollback. */
  function SecretOf(r: Resource): set<Secret> {
    match r
    case SecretSlot(_, slot) => {Slot(slot)}
    case DeviceSession(_, device, _) => {Session(device)}
    case Code(_, flow) => {Flow(flow)}
    case Verifier(_, flow) => {Flow(flow)}
    case Callback(_, _) => {}
    case Token(_) => {}
    case Policy(_) => {}
  }

  datatype Failure =
    | PolicyInactive
    | NotAdmitted
    | ProvenanceInvalid
    | ResourceLimit
    | ResourceUnavailable
    | DeviceInvalid
    | HandleUnsupported
    | ResponseTooLarge
    | PairRefused
    | PairInvalid
    | HostUnbound
    | OwnerMismatch
    | CloseFailed
    | SendFailed
    | ResourceInvalid
    | CredentialUnavailable
    | TransportUnavailable
    | RequestRefused

  /** Outcomes of the resource table and of the transient index during one issue. */
  datatype IssueFaults = IssueFaults(prepare: bool, push: bool, register: bool) {
    predicate Works() { prepare && push && register }
  }

  datatype SlotFaults = SlotFaults(provenance: bool, issue: IssueFaults)

  datatype DeviceFaults = DeviceFaults(live: bool, issue: IssueFaults)

  datatype PairFaults = PairFaults(live: bool, code: IssueFaults, verifier: IssueFaults, stillLive: bool)

  datatype Faults = Faults(access: SlotFaults, refresh: SlotFaults, device: DeviceFaults, pair: PairFaults)

  datatype Response = Response(
    access: Option<SlotId>,
    refresh: Option<SlotId>,
    device: Option<Native>,
    hasCode: bool,
    tooLarge: bool)

  /** What the send returned; `pair` is the flow of a captured code and verifier. */
  datatype Sent = Sent(response: Response, pair: Option<Native>)

  datatype Credential =
    | NoCredential
    | Bearer(handle: Handle, terminal: bool)
    | CodeVerifier(flow: Native, callback: Option<Handle>, verifier: Option<Handle>, code: Option<Handle>, live: bool)
    | Device(handle: Handle, device: Native, generation: nat, live: bool)

  datatype Published = Published(
    access: Option<Handle>,
    refresh: Option<Handle>,
    device: Option<Handle>,
    code: Option<Handle>,
    verifier: Option<Handle>)

  const Nothing := Published(None, None, None, None, None)

  type Arena = map<Handle, Resource>

  /** The resources of a VM, and the secrets that are no longer usable. */
  datatype Store = Store(arena: Arena, dead: set<Secret>)

  // ----- Closing -----

  function Kill(s: Store, x: set<Secret>): Store { s.(dead := s.dead + x) }

  /** Only a resource of the expected kind is closed. */
  function Closed(s: Store, h: Handle, kind: Kind): Store {
    if h in s.arena && KindOf(s.arena[h]) == kind then Store(s.arena - {h}, s.dead + SecretOf(s.arena[h])) else s
  }

  function ClosedOpt(s: Store, h: Option<Handle>, kind: Kind): Store { if h.Some? then Closed(s, h.value, kind) else s }

  /** A flow is revoked and its resources are closed. */
  function RolledBack(
    s: Store, flow: Native, callback: Option<Handle>, verifier: Option<Handle>, code: Option<Handle>): Store
  {
    var revoked := Kill(s, {Flow(flow)});
    ClosedOpt(ClosedOpt(ClosedOpt(revoked, callback, CallbackKind), verifier, VerifierKind), code, CodeKind)
  }

  /** A failed call closes the device session that it used. */
  function Terminated(s: Store, c: Credential): Store { if c.Device? then Closed(s, c.handle, DeviceKind) else s }

  /** The used credential is finished. */
  predicate Finished(c: Credential, active: bool) {
    match c
    case NoCredential => false
    case Bearer(_, terminal) => terminal
    case CodeVerifier(_, _, _, _, live) => !active || !live
    case Device(_, _, _, live) => !active || !live
  }

  /** A finished credential loses its resources before the response is looked at. */
  function AfterUse(s: Store, c: Credential, active: bool): Store {
    if !Finished(c, active) then s
    else
      match c
      case NoCredential => s
      case Bearer(h, _) => Closed(s, h, TokenKind)
      case CodeVerifier(flow, callback, verifier, code, _) => RolledBack(s, flow, callback, verifier, code)
      case Device(h, _, _, _) => Closed(s, h, DeviceKind)
  }

  lemma ClosedIs(s: Store, h: Handle, kind: Kind)
    requires h in s.arena ==> KindOf(s.arena[h]) == kind
    ensures Closed(s, h, kind).arena == s.arena - {h}
  {
  }

  lemma TerminatedTwice(s: Store, c: Credential)
    ensures Terminated(Terminated(s, c), c) == Terminated(s, c)
  {
  }

  /** Closing what was just put leaves the arena as it was. */
  lemma PutClosed(s: Store, h: Handle, r: Resource)
    requires h !in s.arena
    ensures Closed(Put(s, h, r), h, KindOf(r)) == Kill(s, SecretOf(r))
  {
    assert s.arena[h := r] - {h} == s.arena;
  }

  function Put(s: Store, h: Handle, r: Resource): Store { s.(arena := s.arena[h := r]) }

  // ----- What a call adds to the arena -----

  type Parts = seq<(Handle, Resource)>

  function Part(h: Option<Handle>, r: Option<Resource>): Parts {
    if h.Some? && r.Some? then [(h.value, r.value)] else []
  }

  function SlotFor(scope: Scope, slot: Option<SlotId>): Option<Resource> {
    if slot.Some? then Some(SecretSlot(scope.owner.id, slot.value)) else None
  }

  function GrantOf(scope: Scope): Grant { Grant(scope.credential, scope.owner.policy, scope.Generation()) }

  function DeviceFor(scope: Scope, device: Option<Native>): Option<Resource> {
    if device.Some? then Some(DeviceSession(scope.owner.id, device.value, GrantOf(scope))) else None
  }

  function ResponseParts(scope: Scope, r: Response, p: Published): Parts {
    Part(p.access, SlotFor(scope, r.access)) + Part(p.refresh, SlotFor(scope, r.refresh))
    + Part(p.device, DeviceFor(scope, r.device))
  }

  function PairParts(scope: Scope, pair: Option<Native>, p: Published): Parts {
    if pair.None? then []
    else Part(p.code, Some(Code(scope.owner.id, pair.value))) + Part(p.verifier, Some(Verifier(scope.owner.id, pair.value)))
  }

  /** The published handles, each with what it stands for. */
  function Issued(scope: Scope, sent: Sent, p: Published): Parts {
    ResponseParts(scope, sent.response, p) + PairParts(scope, sent.pair, p)
  }

  function HandlesOf(parts: Parts): set<Handle> {
    if parts == [] then {} else HandlesOf(parts[..|parts| - 1]) + {parts[|parts| - 1].0}
  }

  function SecretsOf(parts: Parts): set<Secret> {
    if parts == [] then {} else SecretsOf(parts[..|parts| - 1]) + SecretOf(parts[|parts| - 1].1)
  }

  /** `before` and the parts, each put under a handle that was free. */
  ghost predicate Adds(before: Arena, after: Arena, parts: Parts) {
    if parts == [] then after == before
    else
      var (h, r) := parts[|parts| - 1];
      h in after && after[h] == r && Adds(before, after - {h}, parts[..|parts| - 1])
  }

  ghost predicate Holds(a: Arena, parts: Parts) {
    forall i :: 0 <= i < |parts| && parts[i].0 in a ==> a[parts[i].0] == parts[i].1
  }

  lemma AddsOne(before: Arena, mid: Arena, parts: Parts, h: Handle, r: Resource)
    requires Adds(before, mid, parts) && h !in mid
    ensures Adds(before, mid[h := r], parts + [(h, r)])
  {
    assert (parts + [(h, r)])[..|parts|] == parts;
    assert mid[h := r] - {h} == mid;
  }

  lemma {:induction false} AddsMore(before: Arena, mid: Arena, after: Arena, parts: Parts, more: Parts)
    requires Adds(before, mid, parts) && Adds(mid, after, more)
    ensures Adds(before, after, parts + more)
    decreases |more|
  {
    if more == [] {
      assert parts + more == parts;
    } else {
      var n := |more| - 1;
      AddsMore(before, mid, after - {more[n].0}, parts, more[..n]);
      assert (parts + more)[..|parts| + n] == parts + more[..n];
      assert (parts + more)[|parts| + n] == more[n];
    }
  }

  /** What the parts were added to is still there, and the parts hold. */
  lemma {:induction false} AddsIs(before: Arena, after: Arena, parts: Parts)
    requires Adds(before, after, parts)
    ensures after - HandlesOf(parts) == before && HandlesOf(parts) !! before.Keys && Holds(after, parts)
    ensures forall h :: h in before ==> h in after && after[h] == before[h]
    ensures forall h :: h in after && h !in before ==> h in HandlesOf(parts)
    decreases |parts|
  {
    if parts != [] {
      var n := |parts| - 1;
      var init, h := parts[..n], parts[n].0;
      AddsIs(before, after - {h}, init);
      assert after - HandlesOf(parts) == after - {h} - HandlesOf(init);
      assert h !in before;
      forall i | 0 <= i < |parts| && parts[i].0 in after
        ensures after[parts[i].0] == parts[i].1
      {
        if i < n {
          HandleListed(init, i);
          assert init[i] == parts[i];
          AddedHandles(before, after - {h}, init);
        }
      }
    }
  }

  lemma {:induction false} HandleListed(parts: Parts, i: nat)
    requires i < |parts|
    ensures parts[i].0 in HandlesOf(parts)
    decreases |parts|
  {
    if i < |parts| - 1 {
      HandleListed(parts[..|parts| - 1], i);
    }
  }

  lemma {:induction false} AddedHandles(before: Arena, after: Arena, parts: Parts)
    requires Adds(before, after, parts)
    ensures HandlesOf(parts) <= after.Keys
    decreases |parts|
  {
    if parts != [] {
      var n := |parts| - 1;
      AddedHandles(before, after - {parts[n].0}, parts[..n]);
    }
  }

  // ----- Undoing a call -----

  function SlotSecret(slot: Option<SlotId>): set<Secret> { if slot.Some? then {Slot(slot.value)} else {} }

  function DeviceSecret(device: Option<Native>): set<Secret> { if device.Some? then {Session(device.value)} else {} }

  function ResponseSecrets(r: Response): set<Secret> { SlotSecret(r.access) + SlotSecret(r.refresh) + DeviceSecret(r.device) }

  function PairSecret(pair: Option<Native>): set<Secret> { if pair.Some? then {Flow(pair.value)} else {} }

  /** The session that a device credential stands for. */
  function OwnSecret(a: Arena, c: Credential): set<Secret> {
    if c.Device? && c.handle in a && a[c.handle].DeviceSession? then SecretOf(a[c.handle]) else {}
  }

  function ClosedAll(s: Store, parts: Parts): Store {
    if parts == [] then s
    else Closed(ClosedAll(s, parts[..|parts| - 1]), parts[|parts| - 1].0, KindOf(parts[|parts| - 1].1))
  }

  lemma {:induction false} ClosedAllIs(s: Store, parts: Parts)
    requires Holds(s.arena, parts)
    ensures ClosedAll(s, parts).arena == s.arena - HandlesOf(parts)
    ensures s.dead <= ClosedAll(s, parts).dead <= s.dead + SecretsOf(parts)
    decreases |parts|
  {
    if parts != [] {
      var n := |parts| - 1;
      ClosedAllIs(s, parts[..n]);
      var mid, h := ClosedAll(s, parts[..n]), parts[n].0;
      assert h in mid.arena ==> mid.arena[h] == parts[n].1;
      ClosedIs(mid, h, KindOf(parts[n].1));
      assert s.arena - HandlesOf(parts[..n]) - {h} == s.arena - HandlesOf(parts);
    }
  }

  lemma ClosedAllSplit(s: Store, parts: Parts, h: Handle, r: Resource)
    ensures ClosedAll(s, parts + [(h, r)]) == Closed(ClosedAll(s, parts), h, KindOf(r))
  {
    assert (parts + [(h, r)])[..|parts|] == parts;
  }

  /** The used device session and the issued slots closed, and the secrets of the response revoked. */
  function SlotsWithdrawn(s: Store, scope: Scope, sent: Sent, c: Credential, p: Published, left: Option<Native>): Store {
    Kill(ClosedAll(Terminated(s, c), ResponseParts(scope, sent.response, p)), ResponseSecrets(sent.response) + PairSecret(left))
  }

  /** Undo of a failed call: `left` is a pair that was not published yet. */
  function Withdrawn(s: Store, scope: Scope, sent: Sent, c: Credential, p: Published, left: Option<Native>): Store {
    var slots := SlotsWithdrawn(s, scope, sent, c, p, left);
    if p.code.Some? && sent.pair.Some? then RolledBack(slots, sent.pair.value, None, p.verifier, p.code) else slots
  }

  /**
    What remains of a failed call: the arena of before without the used device session, and
    exactly the secrets of the response, the pair and that session dead in addition.
   */
  lemma WithdrawnIs(
    before: Arena, s: Store, scope: Scope, sent: Sent, c: Credential, p: Published, left: Option<Native>)
    requires Adds(before, s.arena, Issued(scope, sent, p)) && (p.code.Some? <==> p.verifier.Some?)
    ensures var after := Withdrawn(s, scope, sent, c, p, left);
            && after.arena == Terminated(Store(before, {}), c).arena
            && after.dead == s.dead + OwnSecret(before, c) + ResponseSecrets(sent.response) + PairSecret(left)
                             + (if p.code.Some? then PairSecret(sent.pair) else {})
  {
    hide Adds, SlotsWithdrawn, RolledBack, Terminated, OwnSecret, ResponseSecrets, Holds, HandlesOf, Issued;
    SlotsWithdrawnIs(before, s, scope, sent, c, p, left);
    RollbackIs(SlotsWithdrawn(s, scope, sent, c, p, left), scope, sent.pair, p);
  }

  lemma SlotsWithdrawnIs(
    before: Arena, s: Store, scope: Scope, sent: Sent, c: Credential, p: Published, left: Option<Native>)
    requires Adds(before, s.arena, Issued(scope, sent, p))
    ensures var v, pair := SlotsWithdrawn(s, scope, sent, c, p, left), PairParts(scope, sent.pair, p);
            && v.arena - HandlesOf(pair) == Terminated(Store(before, {}), c).arena && Holds(v.arena, pair)
            && v.dead == s.dead + OwnSecret(before, c) + ResponseSecrets(sent.response) + PairSecret(left)
  {
    var slots, pair := ResponseParts(scope, sent.response, p), PairParts(scope, sent.pair, p);
    var parts, t := slots + pair, Terminated(s, c);
    hide Terminated, ResponseParts, PairParts, ResponseSecrets, OwnSecret, Adds, Holds, SecretsOf, HandlesOf, PairSecret;
    AddsIs(before, s.arena, parts);
    PartsConcat(slots, pair);
    TerminatedIs(before, s, parts, c);
    HoldsFewer(s.arena, t.arena, slots, pair);
    ClosedAllIs(t, slots);
    HoldsFewer(t.arena, ClosedAll(t, slots).arena, slots, pair);
    RemoveBoth(t.arena, HandlesOf(slots), HandlesOf(pair));
    ResponsePartSecrets(scope, sent.response, p);
    PairPartSecrets(scope, sent.pair, p);
    hide ClosedAll;
    DeadSum(s.dead, t.dead, ClosedAll(t, slots).dead, OwnSecret(before, c), SecretsOf(slots), SecretsOf(pair),
            ResponseSecrets(sent.response), PairSecret(left));
  }

  lemma RemoveBoth(a: Arena, x: set<Handle>, y: set<Handle>)
    ensures a - x - y == a - (x + y)
  {
  }

  /** Whatever closing has killed on the way is among what is revoked at the end. */
  lemma DeadSum(
    s: set<Secret>, t: set<Secret>, u: set<Secret>, own: set<Secret>, slots: set<Secret>, pair: set<Secret>,
    response: set<Secret>, left: set<Secret>)
    requires s + own <= t && t <= u <= t + slots && slots <= response
    requires forall x :: x in t ==> x in s || x in own || (x.Session? && (x in slots || x in pair))
    requires forall x :: x in pair ==> x.Flow?
    ensures u + (response + left) == s + own + response + left
  {
  }

  lemma {:induction false} PartsConcat(a: Parts, b: Parts)
    ensures HandlesOf(a + b) == HandlesOf(a) + HandlesOf(b) && SecretsOf(a + b) == SecretsOf(a) + SecretsOf(b)
    decreases |b|
  {
    if b == [] {
      assert a + b == a;
    } else {
      var n := |b| - 1;
      PartsConcat(a, b[..n]);
      assert (a + b)[..|a| + n] == a + b[..n] && (a + b)[|a| + n] == b[n];
    }
  }

  lemma HoldsFewer(a: Arena, b: Arena, x: Parts, y: Parts)
    requires (forall h :: h in b ==> h in a && b[h] == a[h]) && (Holds(a, x + y) || (Holds(a, x) && Holds(a, y)))
    ensures Holds(b, x) && Holds(b, y)
  {
    assert forall i :: 0 <= i < |x| ==> (x + y)[i] == x[i];
    assert forall i :: 0 <= i < |y| ==> (x + y)[|x| + i] == y[i];
  }

  lemma ResponsePartSecrets(scope: Scope, r: Response, p: Published)
    ensures SecretsOf(ResponseParts(scope, r, p)) <= ResponseSecrets(r)
  {
    var a, b, d := Part(p.access, SlotFor(scope, r.access)), Part(p.refresh, SlotFor(scope, r.refresh)),
                   Part(p.device, DeviceFor(scope, r.device));
    PartsConcat(a + b, d);
    PartsConcat(a, b);
    assert SecretsOf(a) <= ResponseSecrets(r) && SecretsOf(b) <= ResponseSecrets(r) && SecretsOf(d) <= ResponseSecrets(r);
  }

  lemma PairPartSecrets(scope: Scope, pair: Option<Native>, p: Published)
    ensures forall x :: x in SecretsOf(PairParts(scope, pair, p)) ==> x.Flow?
  {
    if pair.Some? {
      PartsConcat(Part(p.code, Some(Code(scope.owner.id, pair.value))), Part(p.verifier, Some(Verifier(scope.owner.id, pair.value))));
    }
  }

  lemma {:induction false} PartSecret(a: Arena, parts: Parts, h: Handle)
    requires Holds(a, parts) && h in HandlesOf(parts) && h in a
    ensures SecretOf(a[h]) <= SecretsOf(parts)
    decreases |parts|
  {
    var n := |parts| - 1;
    if h != parts[n].0 {
      PartSecret(a, parts[..n], h);
    }
  }

  lemma TerminatedIs(before: Arena, s: Store, parts: Parts, c: Credential)
    requires Adds(before, s.arena, parts)
    ensures var t := Terminated(s, c);
            && t.arena - HandlesOf(parts) == Terminated(Store(before, {}), c).arena
            && s.dead + OwnSecret(before, c) <= t.dead
            && (forall x :: x in t.dead ==> x in s.dead || x in OwnSecret(before, c) || (x.Session? && x in SecretsOf(parts)))
            && (forall h :: h in t.arena ==> h in s.arena && t.arena[h] == s.arena[h])
  {
    AddsIs(before, s.arena, parts);
    if c.Device? && c.handle in s.arena && c.handle !in before {
      PartSecret(s.arena, parts, c.handle);
    }
    hide Adds, Holds, SecretsOf, HandlesOf;
  }

  lemma RollbackIs(v: Store, scope: Scope, pair: Option<Native>, p: Published)
    requires Holds(v.arena, PairParts(scope, pair, p)) && (p.code.Some? <==> p.verifier.Some?)
    ensures var w := if p.code.Some? && pair.Some? then RolledBack(v, pair.value, None, p.verifier, p.code) else v;
            && w.arena == v.arena - HandlesOf(PairParts(scope, pair, p))
            && w.dead == v.dead + (if p.code.Some? then PairSecret(pair) else {})
  {
    if p.code.Some? && pair.Some? {
      var code, verifier := Code(scope.owner.id, pair.value), Verifier(scope.owner.id, pair.value);
      var parts := PairParts(scope, pair, p);
      assert parts == [(p.code.value, code), (p.verifier.value, verifier)];
      assert parts[..1] == [(p.code.value, code)];
      assert HandlesOf(parts[..1]) == {p.code.value};
      assert HandlesOf(parts) == {p.code.value, p.verifier.value};
      assert p.code.value in v.arena ==> v.arena[parts[0].0] == parts[0].1;
      assert p.verifier.value in v.arena ==> v.arena[parts[1].0] == parts[1].1;
    } else {
      assert PairParts(scope, pair, p) == [];
    }
  }

  /** Every part of the response has a handle, and so has the pair, if it was asked for. */
  predicate FullyPublished(sent: Sent, capture: bool, p: Published) {
    && (p.access.Some? <==> sent.response.access.Some?) && (p.refresh.Some? <==> sent.response.refresh.Some?)
    && (p.device.Some? <==> sent.response.device.Some?)
    && (p.code.Some? <==> capture && sent.pair.Some?) && (p.verifier.Some? <==> capture && sent.pair.Some?)
  }

  // ----- When a call succeeds -----

  function Less(a: nat, b: nat): nat { if b <= a then a - b else 0 }

  function Size<T>(x: Option<T>): nat { if x.Some? then 1 else 0 }

  predicate SlotOk(scope: Scope, slot: Option<SlotId>, f: SlotFaults) {
    slot.Some? ==> scope.Admitted() && f.provenance && f.issue.Works()
  }

  predicate DeviceOk(scope: Scope, device: Option<Native>, f: DeviceFaults) {
    device.Some? ==>
      scope.Admitted() && scope.credential in scope.owner.generations && scope.owner.oauth && f.live && f.issue.Works()
  }

  /** The pair belongs to the bound owner, its credential and its generations. */
  predicate PairBound(bound: Option<Owner>, scope: Scope, generation: nat, pair: Native) {
    bound == Some(scope.owner) && generation == scope.Generation() && scope.owner.oauth && pair.binding == scope.Bond()
  }

  predicate PairOk(bound: Option<Owner>, scope: Scope, generation: nat, pair: Option<Native>, f: PairFaults) {
    pair.Some? ==>
      PairBound(bound, scope, generation, pair.value) && scope.Admitted()
      && f.live && f.code.Works() && f.verifier.Works() && f.stillLive
  }

  /** What is captured of a sent response. */
  function Captured(sent: Sent, capture: bool): Option<Native> { if capture then sent.pair else None }

  /** A response that this kind of call cannot take. */
  predicate Unsupported(r: Response, c: Credential) {
    r.hasCode || (r.device.Some? && c != NoCredential) || r.tooLarge
  }

  function Parcels(r: Response): nat { Size(r.access) + Size(r.refresh) + Size(r.device) }

  /** How often the owner is asked while everything goes well. */
  function Checks(sent: Sent, capture: bool): nat {
    2 + 2 * Parcels(sent.response) + (if capture then 2 + 3 * Size(sent.pair) else 0)
  }

  /** Nothing to refuse, no fault, room for every handle, and an owner that stays active. */
  predicate Publishable(
    bound: Option<Owner>, used: nat, checks: nat, scope: Scope, generation: nat, sent: Sent, capture: bool, c: Credential,
    f: Faults)
  {
    && !Unsupported(sent.response, c)
    && SlotOk(scope, sent.response.access, f.access) && SlotOk(scope, sent.response.refresh, f.refresh)
    && DeviceOk(scope, sent.response.device, f.device)
    && PairOk(bound, scope, generation, Captured(sent, capture), f.pair)
    && used + Parcels(sent.response) + 2 * Size(Captured(sent, capture)) <= 64
    && Checks(sent, capture) <= checks
  }

  /** All parts of the response can be issued, with one more check of the owner behind them. */
  predicate IssueOk(scope: Scope, used: nat, checks: nat, r: Response, f: Faults) {
    && SlotOk(scope, r.access, f.access) && SlotOk(scope, r.refresh, f.refresh) && DeviceOk(scope, r.device, f.device)
    && used + Parcels(r) <= LIMIT && 2 * Parcels(r) + 1 <= checks
  }

  /** The pair, if there is one, can be published, with two more checks behind it. */
  predicate CaptureOk(
    bound: Option<Owner>, scope: Scope, generation: nat, used: nat, checks: nat, pair: Option<Native>, f: PairFaults)
  {
    PairOk(bound, scope, generation, pair, f) && used + 2 * Size(pair) <= LIMIT && 3 * Size(pair) + 2 <= checks
  }

  lemma PublishableInTurn(
    bound: Option<Owner>, used: nat, checks: nat, scope: Scope, generation: nat, sent: Sent, capture: bool, c: Credential,
    f: Faults)
    ensures Publishable(bound, used, checks, scope, generation, sent, capture, c, f) <==>
            && 1 <= checks && !Unsupported(sent.response, c) && IssueOk(scope, used, checks - 1, sent.response, f)
            && var left := checks - 2 - 2 * Parcels(sent.response);
            (capture ==> CaptureOk(bound, scope, generation, used + Parcels(sent.response), left, sent.pair, f.pair))
  {
    hide SlotOk, DeviceOk, PairBound, Unsupported, Parcels;
  }

  /** The used credential can be closed: it is not finished, or its resource is still there. */
  predicate Closable(a: Arena, c: Credential, active: bool) {
    match c
    case Bearer(h, _) => Finished(c, active) ==> h in a && KindOf(a[h]) == TokenKind
    case Device(h, _, _, _) => Finished(c, active) ==> h in a && KindOf(a[h]) == DeviceKind
    case _ => true
  }

  /** The owner checks that closing the credential, and then naming the error, use up. */
  function ChecksForUse(c: Credential): nat { 1 + (if c.CodeVerifier? || c.Device? then 1 else 0) }

  lemma LessInTurn(checks: nat, c: Credential)
    ensures Less(Less(checks, ChecksForUse(c) - 1), 1) == Less(checks, ChecksForUse(c))
  {
  }

  /** The generation under which a credential may publish a pair. */
  function GenerationOf(c: Credential): nat { if c.Device? then c.generation else 0 }

  /** A pair comes from a capture, and was promoted from a session of the bound owner. */
  predicate Vouched(bound: Option<Owner>, scope: Scope, capture: bool, c: Credential, sent: Option<Sent>) {
    sent.Some? && sent.value.pair.Some? ==>
      capture && scope.Admitted() && PairBound(bound, scope, GenerationOf(c), sent.value.pair.value)
  }

  /** The end of a call succeeds: the send did, the credential closes, and all can be published. */
  predicate FinishOk(
    bound: Option<Owner>, s: Store, checks: nat, scope: Scope, sent: Option<Sent>, capture: bool, c: Credential, f: Faults)
  {
    && sent.Some? && Closable(s.arena, c, checks > 0)
    && Publishable(bound, |AfterUse(s, c, checks > 0).arena|, Less(checks, ChecksForUse(c)), scope, GenerationOf(c), sent.value,
                   capture, c, f)
  }

  // ----- Resolving handles -----

  /** The bound owner, when the policy resource is its own. */
  function PolicyOf(bound: Option<Owner>, a: Arena, policy: Handle): Option<Owner> {
    if policy in a && a[policy].Policy? && bound.Some? && a[policy].owner == bound.value.id then bound else None
  }

  /** Every check on a device handle that a script passes in; `stays`: the session is live after the send, too. */
  function Resolve(bound: Option<Owner>, a: Arena, scope: Scope, h: Handle, live: bool, stays: bool): Result<Credential, Failure> {
    if h !in a || !a[h].DeviceSession? then Err(ResourceInvalid)
    else
      var d := a[h];
      if bound.None? then Err(HostUnbound)
      else if bound != Some(scope.owner) || d.owner != scope.owner.id then Err(OwnerMismatch)
      else if d.grant.credential != scope.credential || d.grant.policy != scope.owner.policy then Err(ProvenanceInvalid)
      else if scope.credential !in scope.owner.generations then Err(CredentialUnavailable)
      else if d.grant.generation != scope.owner.generations[scope.credential] then Err(ProvenanceInvalid)
      else if !scope.owner.oauth then Err(TransportUnavailable)
      else if d.device.binding != scope.Bond() then Err(ProvenanceInvalid)
      else if !live then Err(ResourceInvalid)
      else Ok(Device(h, d.device, d.grant.generation, stays))
  }

  /** A pair is promoted from a device session and copies its binding. */
  function Promote(device: Native, id: nat): Native { Native(id, device.binding) }

  /** The checks on the device handle are all that the publication of a promoted pair asks for. */
  lemma PromotedIsBound(bound: Option<Owner>, a: Arena, scope: Scope, h: Handle, live: bool, stays: bool, id: nat)
    requires Resolve(bound, a, scope, h, live, stays).Ok?
    ensures var c := Resolve(bound, a, scope, h, live, stays).value;
            c.Device? && PairBound(bound, scope, c.generation, Promote(c.device, id))
  {
  }

  // ----- What an error tells -----

  /** The owner was not active long enough, or the arena has no room. */
  predicate Lacking(e: Failure, checks: nat, needed: nat, used: nat, wanted: nat) {
    (e == PolicyInactive && checks < needed) || (e == ResourceLimit && used + wanted > LIMIT)
  }

  predicate SlotReason(e: Failure, scope: Scope, slot: Option<SlotId>, f: SlotFaults) {
    slot.Some? &&
    match e
    case NotAdmitted => !scope.Admitted()
    case ProvenanceInvalid => !f.provenance
    case ResourceUnavailable => !f.issue.Works()
    case _ => false
  }

  predicate DeviceReason(e: Failure, scope: Scope, device: Option<Native>, f: DeviceFaults) {
    device.Some? &&
    match e
    case NotAdmitted => !scope.Admitted()
    case CredentialUnavailable => scope.credential !in scope.owner.generations
    case TransportUnavailable => !scope.owner.oauth
    case DeviceInvalid => !f.live
    case ResourceUnavailable => !f.issue.Works()
    case _ => false
  }

  predicate ResponseReason(e: Failure, scope: Scope, r: Response, f: Faults) {
    || SlotReason(e, scope, r.access, f.access) || SlotReason(e, scope, r.refresh, f.refresh)
    || DeviceReason(e, scope, r.device, f.device)
  }

  predicate PairReason(
    e: Failure, bound: Option<Owner>, scope: Scope, generation: nat, pair: Option<Native>, f: PairFaults)
  {
    pair.Some? &&
    match e
    case PairRefused => !PairBound(bound, scope, generation, pair.value) || !scope.Admitted()
    case PairInvalid => !f.live || !f.stillLive
    case ResourceUnavailable => !f.code.Works() || !f.verifier.Works()
    case _ => false
  }

  predicate RefusalReason(e: Failure, r: Response, c: Credential) {
    match e
    case HandleUnsupported => r.hasCode || (r.device.Some? && c != NoCredential)
    case ResponseTooLarge => r.tooLarge
    case _ => false
  }

  /** The error of a failed publication names something that is indeed wrong. */
  predicate PublishReason(
    e: Failure, bound: Option<Owner>, used: nat, checks: nat, scope: Scope, generation: nat, sent: Sent, capture: bool,
    c: Credential, f: Faults)
  {
    var pair := Captured(sent, capture);
    || Lacking(e, checks, Checks(sent, capture), used, Parcels(sent.response) + 2 * Size(pair))
    || RefusalReason(e, sent.response, c) || ResponseReason(e, scope, sent.response, f)
    || PairReason(e, bound, scope, generation, pair, f.pair)
  }

  lemma RefusedFor(
    e: Failure, bound: Option<Owner>, used: nat, checks: nat, scope: Scope, generation: nat, sent: Sent, capture: bool,
    c: Credential, f: Faults)
    requires (e == PolicyInactive && checks == 0) || RefusalReason(e, sent.response, c)
    ensures PublishReason(e, bound, used, checks, scope, generation, sent, capture, c, f) && e != PairRefused
  {
    hide ResponseReason, PairReason;
  }

  lemma IssueFailedFor(
    e: Failure, bound: Option<Owner>, used: nat, checks: nat, scope: Scope, generation: nat, sent: Sent, capture: bool,
    c: Credential, f: Faults)
    requires 1 <= checks
    requires Lacking(e, checks - 1, 2 * Parcels(sent.response) + 1, used, Parcels(sent.response))
             || ResponseReason(e, scope, sent.response, f)
    ensures PublishReason(e, bound, used, checks, scope, generation, sent, capture, c, f) && e != PairRefused
  {
    hide RefusalReason, PairReason, Parcels;
  }

  lemma CaptureFailedFor(
    e: Failure, bound: Option<Owner>, used: nat, checks: nat, scope: Scope, generation: nat, sent: Sent, c: Credential,
    f: Faults)
    requires 2 + 2 * Parcels(sent.response) <= checks
    requires Lacking(e, checks - 2 - 2 * Parcels(sent.response), 3 * Size(sent.pair) + 2,
                     used + Parcels(sent.response), 2 * Size(sent.pair))
             || PairReason(e, bound, scope, generation, sent.pair, f.pair)
    ensures PublishReason(e, bound, used, checks, scope, generation, sent, true, c, f)
  {
    hide RefusalReason, ResponseReason, PairReason, Parcels;
  }

  /** The pair of a vouched call is not refused. */
  lemma VouchedIsNotRefused(
    e: Failure, bound: Option<Owner>, used: nat, checks: nat, scope: Scope, sent: Sent, capture: bool, c: Credential, f: Faults)
    requires Vouched(bound, scope, capture, c, Some(sent))
    requires PublishReason(e, bound, used, checks, scope, GenerationOf(c), sent, capture, c, f)
    ensures e != PairRefused
  {
    hide PairBound, Parcels;
  }

  /** The same for the end of a call: the send comes first, then the credential. */
  predicate FinishReason(
    e: Failure, bound: Option<Owner>, s: Store, checks: nat, scope: Scope, sent: Option<Sent>, capture: bool, c: Credential,
    f: Faults)
  {
    if sent.None? then e == SendFailed
    else if !Closable(s.arena, c, checks > 0) then e == CloseFailed
    else
      PublishReason(e, bound, |AfterUse(s, c, checks > 0).arena|, Less(checks, ChecksForUse(c)), scope, GenerationOf(c),
                    sent.value, capture, c, f)
  }

  /** Why a policy handle gives no owner. */
  predicate PolicyReason(e: Failure, bound: Option<Owner>, a: Arena, checks: nat, policy: Handle, credential: CredentialId) {
    match e
    case ResourceInvalid => policy !in a || !a[policy].Policy?
    case HostUnbound => policy in a && a[policy].Policy? && bound.None?
    case OwnerMismatch => policy in a && a[policy].Policy? && bound.Some? && a[policy].owner != bound.value.id
    case PolicyInactive => PolicyOf(bound, a, policy).Some? && checks < 2
    case NotAdmitted => PolicyOf(bound, a, policy).Some? && credential !in PolicyOf(bound, a, policy).value.admits
    case _ => false
  }

  /** Why a device handle does not resolve. */
  predicate ResolveReason(e: Failure, bound: Option<Owner>, a: Arena, scope: Scope, h: Handle, live: bool) {
    if h !in a || !a[h].DeviceSession? then e == ResourceInvalid
    else
      match e
      case ResourceInvalid => !live
      case HostUnbound => bound.None?
      case OwnerMismatch => bound.Some? && (bound.value != scope.owner || a[h].owner != scope.owner.id)
      case CredentialUnavailable => scope.credential !in scope.owner.generations
      case TransportUnavailable => !scope.owner.oauth
      case ProvenanceInvalid =>
        a[h].grant != Grant(scope.credential, scope.owner.policy, scope.Generation()) || a[h].device.binding != scope.Bond()
      case _ => false
  }

  /** The handle is a device session of the bound owner, granted and made for just this scope. */
  predicate Entitled(bound: Option<Owner>, a: Arena, scope: Scope, h: Handle) {
    && h in a && a[h].DeviceSession? && bound == Some(scope.owner) && a[h].owner == scope.owner.id
    && scope.owner.oauth && scope.credential in scope.owner.generations
    && a[h].grant == Grant(scope.credential, scope.owner.policy, scope.owner.generations[scope.credential])
    && a[h].device.binding == Binding(scope.owner.policy, scope.owner.run, scope.credential)
  }

  lemma ResolvedExactly(bound: Option<Owner>, a: Arena, scope: Scope, h: Handle, live: bool, stays: bool)
    ensures var c := Resolve(bound, a, scope, h, live, stays);
            && (c.Ok? <==> live && Entitled(bound, a, scope, h))
            && (c.Ok? ==> c.value == Device(h, a[h].device, scope.owner.generations[scope.credential], stays))
            && (c.Err? ==> ResolveReason(c.error, bound, a, scope, h, live))
  {
  }

  /** All secrets that came with a response. */
  function Received(sent: Sent): set<Secret> { ResponseSecrets(sent.response) + PairSecret(sent.pair) }

  /** What a failed call leaves behind. */
  function AfterFailure(s: Store, sent: Sent, c: Credential, e: Failure): Store {
    Kill(Terminated(s, c), ResponseSecrets(sent.response) + (if e == PairRefused then {} else PairSecret(sent.pair)))
  }

  lemma NoPairParts(scope: Scope, pair: Option<Native>, p: Published)
    requires p.code.None? && p.verifier.None?
    ensures PairParts(scope, pair, p) == []
  {
  }

  lemma BothPairParts(scope: Scope, pair: Option<Native>, p: Published)
    requires pair.Some? && p.code.Some? && p.verifier.Some?
    ensures PairParts(scope, pair, p) == [(p.code.value, Code(scope.owner.id, pair.value)), (p.verifier.value, Verifier(scope.owner.id, pair.value))]
  {
  }

  lemma SameResponseParts(scope: Scope, r: Response, q: Published, p: Published)
    requires p == q.(code := p.code, verifier := p.verifier)
    ensures ResponseParts(scope, r, p) == ResponseParts(scope, r, q) && (Backed(r, q) ==> Backed(r, p))
  {
  }

  /** A call that failed after `p` was issued. */
  lemma FailedCall(
    start: Store, s: Store, scope: Scope, sent: Sent, c: Credential, p: Published, left: Option<Native>, e: Failure)
    requires Adds(start.arena, s.arena, Issued(scope, sent, p)) && (p.code.Some? <==> p.verifier.Some?)
    requires var x := PairSecret(left) + (if p.code.Some? then PairSecret(sent.pair) else {});
             var y := if e == PairRefused then {} else PairSecret(sent.pair);
             x <= y && start.dead + (y - x) <= s.dead <= start.dead + (y - x) + ResponseSecrets(sent.response)
    ensures Withdrawn(s, scope, sent, c, p, left) == AfterFailure(start, sent, c, e)
  {
    hide Adds, Withdrawn, ResponseSecrets, PairSecret;
    WithdrawnIs(start.arena, s, scope, sent, c, p, left);
    TerminatedDead(start, c);
    hide Terminated, OwnSecret;
  }

  lemma KillNothing(s: Store)
    ensures Kill(s, {}) == s
  {
  }

  /** An alias that is gone leaves nothing to terminate. */
  lemma UnclosedTerminates(s: Store, c: Credential, active: bool)
    requires !Closable(s.arena, c, active)
    ensures Terminated(AfterUse(s, c, active), c) == AfterUse(s, c, active)
  {
  }

  /** With a device credential a call takes nothing from the arena but the session itself. */
  lemma DeviceLeaves(s: Store, c: Credential, active: bool)
    requires c.Device?
    ensures var used := AfterUse(s, c, active);
            && (used == s || used == Closed(s, c.handle, DeviceKind))
            && Terminated(used, c) == Closed(s, c.handle, DeviceKind)
  {
  }

  lemma TerminatedDead(s: Store, c: Credential)
    ensures Terminated(s, c).arena == Terminated(Store(s.arena, {}), c).arena
    ensures Terminated(s, c).dead == s.dead + OwnSecret(s.arena, c)
  {
  }

  /** A call refused before anything was issued; its device session may be closed already. */
  lemma RefusedCall(start: Store, s: Store, scope: Scope, sent: Sent, c: Credential, e: Failure)
    requires (s == start || s == Terminated(start, c)) && e != PairRefused
    ensures Withdrawn(s, scope, sent, c, Nothing, sent.pair) == AfterFailure(start, sent, c, e)
  {
    NothingAdded(s.arena);
    assert Issued(scope, sent, Nothing) == [];
    FailedCall(s, s, scope, sent, c, Nothing, sent.pair, e);
    TerminatedTwice(start, c);
    hide Withdrawn, Terminated, ResponseSecrets, PairSecret;
  }

  /** Only what the response carries has been issued. */
  predicate Backed(r: Response, p: Published) {
    && (p.access.Some? ==> r.access.Some?) && (p.refresh.Some? ==> r.refresh.Some?)
    && (p.device.Some? ==> r.device.Some?)
  }

  lemma KillBoth(s: Store, x: set<Secret>, y: set<Secret>)
    ensures Kill(Kill(s, x), y) == Kill(s, x + y) && (y == {} ==> Kill(s, x + y) == Kill(s, x))
  {
    assert s.dead + x + y == s.dead + (x + y);
  }

  lemma PublishedClosed(s: Store, scope: Scope, r: Response, p: Published)
    requires Backed(r, p)
    ensures ClosedAll(s, ResponseParts(scope, r, p))
            == ClosedOpt(ClosedOpt(ClosedOpt(s, p.access, SlotKind), p.refresh, SlotKind), p.device, DeviceKind)
  {
    var a, b, d := Part(p.access, SlotFor(scope, r.access)), Part(p.refresh, SlotFor(scope, r.refresh)),
                   Part(p.device, DeviceFor(scope, r.device));
    ClosedPart(s, [], p.access, SlotFor(scope, r.access), SlotKind);
    ClosedPart(s, [] + a, p.refresh, SlotFor(scope, r.refresh), SlotKind);
    ClosedPart(s, [] + a + b, p.device, DeviceFor(scope, r.device), DeviceKind);
    assert [] + a + b + d == ResponseParts(scope, r, p);
    hide ClosedOpt;
  }

  lemma ClosedPart(s: Store, parts: Parts, h: Option<Handle>, r: Option<Resource>, kind: Kind)
    requires h.Some? ==> r.Some? && KindOf(r.value) == kind
    ensures ClosedAll(s, parts + Part(h, r)) == ClosedOpt(ClosedAll(s, parts), h, kind)
  {
    hide Closed;
    if h.Some? {
      ClosedAllSplit(s, parts, h.value, r.value);
    } else {
      assert parts + Part(h, r) == parts;
    }
  }

  lemma NothingAdded(a: Arena)
    ensures Adds(a, a, [])
  {
  }

  lemma OneAdded(a: Arena, h: Handle, r: Resource)
    requires h !in a
    ensures Adds(a, a[h := r], [(h, r)])
  {
    NothingAdded(a);
    AddsOne(a, a, [], h, r);
    assert [] + [(h, r)] == [(h, r)];
  }

  /** Parts that have no handle yet add nothing. */
  lemma PartsSoFar(scope: Scope, r: Response, p: Published)
    ensures var a, b := Part(p.access, SlotFor(scope, r.access)), Part(p.refresh, SlotFor(scope, r.refresh));
            && (p.device.None? ==> ResponseParts(scope, r, p) == a + b)
            && (p.refresh.None? && p.device.None? ==> ResponseParts(scope, r, p) == a)
            && (ResponseParts(scope, r, p) == ResponseParts(scope, r, p.(device := None)) + Part(p.device, DeviceFor(scope, r.device)))
  {
    var a, b := Part(p.access, SlotFor(scope, r.access)), Part(p.refresh, SlotFor(scope, r.refresh));
    assert a + b + [] == a + b && a + [] + [] == a;
  }

  lemma PairAdded(a: Arena, code: Handle, verifier: Handle, scope: Scope, flow: Native)
    requires code !in a && verifier !in a[code := Code(scope.owner.id, flow)]
    ensures Adds(a, a[code := Code(scope.owner.id, flow)][verifier := Verifier(scope.owner.id, flow)],
                 [(code, Code(scope.owner.id, flow)), (verifier, Verifier(scope.owner.id, flow))])
  {
    NothingAdded(a);
    AddsOne(a, a, [], code, Code(scope.owner.id, flow));
    AddsOne(a, a[code := Code(scope.owner.id, flow)], [] + [(code, Code(scope.owner.id, flow))], verifier, Verifier(scope.owner.id, flow));
    assert [] + [(code, Code(scope.owner.id, flow))] + [(verifier, Verifier(scope.owner.id, flow))]
        == [(code, Code(scope.owner.id, flow)), (verifier, Verifier(scope.owner.id, flow))];
  }

  /** Rolling back a pair that was issued in part leaves the arena as it was, and the flow dead. */
  lemma PairUndone(start: Store, s: Store, scope: Scope, flow: Native, code: Option<Handle>, verifier: Option<Handle>)
    requires code.Some? ==> code.value !in start.arena
    requires verifier.Some? ==> code.Some? && verifier.value !in start.arena && verifier != code
    requires var one := if code.Some? then start.arena[code.value := Code(scope.owner.id, flow)] else start.arena;
             s.arena == if verifier.Some? then one[verifier.value := Verifier(scope.owner.id, flow)] else one
    requires start.dead <= s.dead <= start.dead + {Flow(flow)}
    ensures RolledBack(s, flow, None, verifier, code) == Kill(start, {Flow(flow)})
  {
    var v := Kill(s, {Flow(flow)});
    assert v.dead == start.dead + {Flow(flow)};
    if verifier.Some? {
      var w := Closed(v, verifier.value, VerifierKind);
      assert w.arena == start.arena[code.value := Code(scope.owner.id, flow)] && w.dead == v.dead;
      assert Closed(w, code.value, CodeKind).arena == start.arena;
    } else if code.Some? {
      assert Closed(v, code.value, CodeKind).arena == start.arena;
    }
  }

  lemma SmallerArena(a: Arena, h: Handle)
    ensures |a - {h}| <= |a|
  {
    assert (a - {h}).Keys <= a.Keys;
    SubsetSize((a - {h}).Keys, a.Keys);
  }

  lemma {:induction false} SubsetSize<T>(a: set<T>, b: set<T>)
    requires a <= b
    ensures |a| <= |b|
    decreases |a|
  {
    if a != {} {
      var x :| x in a;
      SubsetSize(a - {x}, b - {x});
    }
  }

  lemma LargerArena(a: Arena, h: Handle, r: Resource)
    requires h !in a
    ensures |a[h := r]| == |a| + 1
  {
    assert a[h := r].Keys == a.Keys + {h};
  }
}
