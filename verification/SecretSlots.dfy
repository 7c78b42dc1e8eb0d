/**
  Publication of secrets after a transport send.

  A response can carry an access slot, a refresh slot and a device session, and a captured
  exchange gives a pair of an authorization code and its verifier.  Each is put into the
  VM's bounded resource arena for the bound owner.  The owner may become inactive at any
  moment, and any step may fail: then nothing of the response may remain usable.
 */
module SecretSlots {
  import opened Common
  import opened SecretStore

  class Vm {
    // The owner of the scope; nothing rebinds it while a call holds the VM.
    const bound: Option<Owner>
    var arena: Arena
    var nextHandle: Handle
    var dead: set<Secret>
    // How many more times the owner check succeeds; an inactive owner stays inactive.
    var activeChecks: nat

    ghost predicate Valid()
      reads this
    {
      |arena| <= LIMIT && forall h :: h in arena ==> h < nextHandle
    }

    function View(): Store
      reads this
    {
      Store(arena, dead)
    }

    constructor (bound: Option<Owner>, activeChecks: nat)
      ensures Valid() && View() == Store(map[], {}) && this.bound == bound
    {
      this.bound := bound;
      arena, nextHandle, dead, this.activeChecks := map[], 0, {}, activeChecks;
    }

    method OwnerActive() returns (active: bool)
      modifies this`activeChecks
      ensures active <==> old(activeChecks) > 0
      ensures activeChecks == if active then old(activeChecks) - 1 else 0
      ensures old(Valid()) ==> Valid()
    {
      active := activeChecks > 0;
      if active {
        activeChecks := activeChecks - 1;
      }
    }

    /** Closing a resource of the expected kind takes it out of the arena and ends what it stands for. */
    method Close(h: Handle, kind: Kind) returns (closed: bool)
      requires Valid()
      modifies this`arena, this`dead
      ensures Valid() && View() == Closed(old(View()), h, kind)
      ensures closed <==> h in old(arena) && KindOf(old(arena)[h]) == kind
    {
      closed := h in arena && KindOf(arena[h]) == kind;
      if closed {
        SmallerArena(arena, h);
        dead := dead + SecretOf(arena[h]);
        arena := arena - {h};
      }
    }

    method CloseIssued(h: Option<Handle>, kind: Kind)
      requires Valid()
      modifies this`arena, this`dead
      ensures Valid() && View() == ClosedOpt(old(View()), h, kind)
    {
      hide Closed;
      if h.Some? {
        var _ := Close(h.value, kind);
      }
    }

    /** The bounded table never grows past its limit, and a failed issue leaves it as it was. */
    method Issue(r: Resource, f: IssueFaults) returns (result: Result<Handle, Failure>)
      requires Valid()
      modifies this`arena, this`nextHandle, this`dead
      ensures Valid()
      ensures result.Ok? <==> f.Works() && |old(arena)| < LIMIT
      ensures |arena| == |old(arena)| + (if result.Ok? then 1 else 0)
      ensures result.Ok? ==> result.value !in old(arena) && View() == Put(old(View()), result.value, r)
      ensures result.Err? ==> arena == old(arena)
                              && result.error == if f.prepare && |old(arena)| >= LIMIT then ResourceLimit else ResourceUnavailable
      ensures old(dead) <= dead <= old(dead) + SecretOf(r)
    {
      hide Closed, SecretOf;
      if !f.prepare {
        return Err(ResourceUnavailable);
      }
      if |arena| >= LIMIT {
        return Err(ResourceLimit);
      }
      if !f.push {
        return Err(ResourceUnavailable);
      }
      var h := nextHandle;
      LargerArena(arena, h, r);
      PutClosed(View(), h, r);
      arena := arena[h := r];
      nextHandle := nextHandle + 1;
      if !f.register {
        var _ := Close(h, KindOf(r));
        return Err(ResourceUnavailable);
      }
      return Ok(h);
    }

    /** A slot that cannot be issued is revoked. */
    method IssueOwnerSlot(scope: Scope, slot: SlotId, f: SlotFaults) returns (result: Result<Handle, Failure>)
      requires Valid()
      modifies this
      ensures Valid()
      ensures result.Ok? ==> result.value !in old(arena) && View() == Put(old(View()), result.value, SecretSlot(scope.owner.id, slot))
      ensures result.Err? ==> View() == Kill(old(View()), {Slot(slot)})
      ensures result.Err? ==> Lacking(result.error, old(activeChecks), 2, |old(arena)|, 1) || SlotReason(result.error, scope, Some(slot), f)
      ensures result.Ok? <==> SlotOk(scope, Some(slot), f) && |old(arena)| < LIMIT && old(activeChecks) >= 2
      ensures result.Ok? ==> activeChecks == old(activeChecks) - 2 && |arena| == |old(arena)| + 1
    {
      result := TryIssueSlot(scope, slot, f);
      if result.Err? {
        dead := dead + {Slot(slot)};
      }
    }

    method TryIssueSlot(scope: Scope, slot: SlotId, f: SlotFaults) returns (result: Result<Handle, Failure>)
      requires Valid()
      modifies this
      ensures Valid()
      ensures result.Ok? ==> result.value !in old(arena) && View() == Put(old(View()), result.value, SecretSlot(scope.owner.id, slot))
      ensures result.Err? ==> arena == old(arena)
      ensures result.Err? ==> Lacking(result.error, old(activeChecks), 2, |old(arena)|, 1) || SlotReason(result.error, scope, Some(slot), f)
      ensures old(dead) <= dead <= old(dead) + {Slot(slot)}
      ensures result.Ok? <==> SlotOk(scope, Some(slot), f) && |old(arena)| < LIMIT && old(activeChecks) >= 2
      ensures result.Ok? ==> activeChecks == old(activeChecks) - 2 && |arena| == |old(arena)| + 1
    {
      hide Closed, Valid;
      var active := OwnerActive();
      if !active {
        return Err(PolicyInactive);
      }
      if !scope.Admitted() {
        return Err(NotAdmitted);
      }
      if !f.provenance {
        return Err(ProvenanceInvalid);
      }
      ghost var before := View();
      result := Issue(SecretSlot(scope.owner.id, slot), f.issue);
      if result.Err? {
        return;
      }
      active := OwnerActive();
      if !active {
        PutClosed(before, result.value, SecretSlot(scope.owner.id, slot));
        var _ := Close(result.value, SlotKind);
        return Err(PolicyInactive);
      }
    }

    method IssueDevice(scope: Scope, device: Native, f: DeviceFaults) returns (result: Result<Handle, Failure>)
      requires Valid()
      modifies this
      ensures Valid()
      ensures result.Ok? ==> result.value !in old(arena) && View() == Put(old(View()), result.value, DeviceSession(scope.owner.id, device, GrantOf(scope)))
      ensures result.Err? ==> arena == old(arena)
      ensures result.Err? ==>
                Lacking(result.error, old(activeChecks), 2, |old(arena)|, 1) || DeviceReason(result.error, scope, Some(device), f)
      ensures old(dead) <= dead <= old(dead) + {Session(device)}
      ensures result.Ok? <==> DeviceOk(scope, Some(device), f) && |old(arena)| < LIMIT && old(activeChecks) >= 2
      ensures result.Ok? ==> activeChecks == old(activeChecks) - 2 && |arena| == |old(arena)| + 1
    {
      hide Closed, Valid;
      var active := OwnerActive();
      if !active {
        return Err(PolicyInactive);
      }
      if !scope.Admitted() {
        return Err(NotAdmitted);
      }
      if scope.credential !in scope.owner.generations {
        return Err(CredentialUnavailable);
      }
      if !scope.owner.oauth {
        return Err(TransportUnavailable);
      }
      if !f.live {
        return Err(DeviceInvalid);
      }
      if |arena| >= LIMIT {
        return Err(ResourceLimit);
      }
      ghost var before := View();
      result := Issue(DeviceSession(scope.owner.id, device, GrantOf(scope)), f.issue);
      if result.Err? {
        return;
      }
      active := OwnerActive();
      if !active {
        PutClosed(before, result.value, DeviceSession(scope.owner.id, device, GrantOf(scope)));
        var _ := Close(result.value, DeviceKind);
        return Err(PolicyInactive);
      }
    }

    // ----- The captured pair -----

    method RevokePair(flow: Native)
      modifies this`dead
      ensures View() == Kill(old(View()), {Flow(flow)})
      ensures old(Valid()) ==> Valid()
    {
      dead := dead + {Flow(flow)};
    }

    /** Revoke a flow and close those of its resources that were issued. */
    method RollbackFlow(flow: Native, callback: Option<Handle>, verifier: Option<Handle>, code: Option<Handle>)
      requires Valid()
      modifies this`arena, this`dead
      ensures Valid() && View() == RolledBack(old(View()), flow, callback, verifier, code)
    {
      hide Valid, ClosedOpt;
      RevokePair(flow);
      CloseIssued(callback, CallbackKind);
      CloseIssued(verifier, VerifierKind);
      CloseIssued(code, CodeKind);
    }

    /**
      Both handles or none.  A pair that is refused because it does not belong to the bound
      owner, or its credential is not admitted, is left alone; after every other failure its
      flow is revoked.
     */
    method PublishPair(scope: Scope, generation: nat, flow: Native, f: PairFaults) returns (r: Result<(Handle, Handle), Failure>)
      requires Valid()
      modifies this
      ensures Valid()
      ensures r.Ok? ==> Adds(old(arena), arena, [(r.value.0, Code(scope.owner.id, flow)), (r.value.1, Verifier(scope.owner.id, flow))])
                        && dead == old(dead)
      ensures r.Err? ==> View() == Kill(old(View()), if r.error == PairRefused then {} else {Flow(flow)})
      ensures r == Err(PairRefused) <==>
              !PairBound(bound, scope, generation, flow) || (!scope.Admitted() && old(activeChecks) >= 2)
      ensures r.Err? ==> Lacking(r.error, old(activeChecks), 3, |old(arena)|, 2)
                         || PairReason(r.error, bound, scope, generation, Some(flow), f)
      ensures r.Ok? <==> PairOk(bound, scope, generation, Some(flow), f) && |old(arena)| + 2 <= LIMIT && old(activeChecks) >= 3
      ensures r.Ok? ==> activeChecks == old(activeChecks) - 3
    {
      hide Valid, Adds;
      if !PairBound(bound, scope, generation, flow) {
        return Err(PairRefused);
      }
      var active := OwnerActive();
      if !active || !scope.Admitted() {
        active := OwnerActive();
        if !active {
          RevokePair(flow);
          return Err(PolicyInactive);
        }
        return Err(PairRefused);
      }
      active := OwnerActive();
      if !active {
        RevokePair(flow);
        return Err(PolicyInactive);
      }
      if !f.live {
        RevokePair(flow);
        return Err(PairInvalid);
      }
      if |arena| + 2 > LIMIT {
        RevokePair(flow);
        return Err(ResourceLimit);
      }
      r := IssuePair(scope, flow, f);
    }

    method IssuePair(scope: Scope, flow: Native, f: PairFaults) returns (r: Result<(Handle, Handle), Failure>)
      requires Valid() && |arena| + 2 <= LIMIT && bound == Some(scope.owner)
      modifies this
      ensures Valid()
      ensures r.Ok? ==> Adds(old(arena), arena, [(r.value.0, Code(scope.owner.id, flow)), (r.value.1, Verifier(scope.owner.id, flow))])
                        && dead == old(dead)
      ensures r.Err? ==> View() == Kill(old(View()), {Flow(flow)})
      ensures r.Err? ==>
                match r.error
                case PolicyInactive => old(activeChecks) == 0
                case PairInvalid => !f.stillLive
                case ResourceUnavailable => !f.code.Works() || !f.verifier.Works()
                case _ => false
      ensures r.Ok? <==> f.code.Works() && f.verifier.Works() && f.stillLive && old(activeChecks) >= 1
      ensures r.Ok? ==> activeChecks == old(activeChecks) - 1
    {
      hide Valid, Adds, RolledBack, KindOf;
      ghost var start := View();
      var code := Issue(Code(scope.owner.id, flow), f.code);
      ghost var first := View();
      if code.Err? {
        PairUndone(start, first, scope, flow, None, None);
        RollbackFlow(flow, None, None, None);
        return Err(code.error);
      }
      var verifier := Issue(Verifier(scope.owner.id, flow), f.verifier);
      if verifier.Err? {
        PairUndone(start, View(), scope, flow, Some(code.value), None);
        RollbackFlow(flow, None, None, Some(code.value));
        return Err(verifier.error);
      }
      var failure := if bound != Some(scope.owner) then Some(OwnerMismatch) else None;
      if failure.None? {
        var active := OwnerActive();
        failure := if !active then Some(PolicyInactive) else if !f.stillLive then Some(PairInvalid) else None;
      }
      if failure.Some? {
        PairUndone(start, View(), scope, flow, Some(code.value), Some(verifier.value));
        RollbackFlow(flow, None, Some(verifier.value), Some(code.value));
        return Err(failure.value);
      }
      PairAdded(start.arena, code.value, verifier.value, scope, flow);
      return Ok((code.value, verifier.value));
    }

    // ----- The used credential -----

    /** A finished credential loses its resources; an alias that is already gone is an error. */
    method CloseIfTerminal(credential: Credential) returns (closed: bool)
      requires Valid()
      modifies this
      ensures Valid() && View() == AfterUse(old(View()), credential, old(activeChecks) > 0)
      ensures closed <==> Closable(old(arena), credential, old(activeChecks) > 0)
      ensures activeChecks == Less(old(activeChecks), ChecksForUse(credential) - 1)
    {
      hide Closed, RolledBack, Valid;
      match credential {
        case NoCredential => return true;
        case Bearer(h, terminal) =>
          if terminal {
            closed := Close(h, TokenKind);
            return;
          }
          return true;
        case CodeVerifier(flow, callback, verifier, code, live) =>
          var active := OwnerActive();
          if !active || !live {
            RollbackFlow(flow, callback, verifier, code);
          }
          return true;
        case Device(h, _, _, live) =>
          var active := OwnerActive();
          if !active || !live {
            closed := Close(h, DeviceKind);
            return;
          }
          return true;
      }
    }

    method TerminateDevice(credential: Credential)
      requires Valid()
      modifies this`arena, this`dead
      ensures Valid() && View() == Terminated(old(View()), credential)
    {
      hide Closed;
      if credential.Device? {
        var _ := Close(credential.handle, DeviceKind);
      }
    }

    // ----- The response -----

    /** Everything secret in the response is made unusable. */
    method RevokeResponse(response: Response)
      modifies this`dead
      ensures View() == Kill(old(View()), ResponseSecrets(response))
      ensures old(Valid()) ==> Valid()
    {
      if response.access.Some? {
        dead := dead + {Slot(response.access.value)};
      }
      if response.refresh.Some? {
        dead := dead + {Slot(response.refresh.value)};
      }
      if response.device.Some? {
        dead := dead + {Session(response.device.value)};
      }
    }

    /** A response whose credential could not be closed is revoked as a whole, with its pair. */
    method FinalizeResponse(sent: Option<Sent>, closed: bool) returns (r: Result<Sent, Failure>)
      modifies this`dead
      ensures old(Valid()) ==> Valid()
      ensures r.Ok? <==> sent.Some? && closed
      ensures r.Ok? ==> r.value == sent.value
      ensures r.Err? ==> r.error == if sent.None? then SendFailed else CloseFailed
      ensures View() == Kill(old(View()), if sent.Some? && !closed then Received(sent.value) else {})
    {
      hide ResponseSecrets;
      if sent.None? {
        return Err(SendFailed);
      }
      if !closed {
        RevokeResponse(sent.value.response);
        if sent.value.pair.Some? {
          RevokePair(sent.value.pair.value);
        }
        return Err(CloseFailed);
      }
      return Ok(sent.value);
    }

    /** Reasons to refuse the response before anything is issued. */
    method Refuse(response: Response, credential: Credential) returns (failure: Option<Failure>)
      requires Valid()
      modifies this
      ensures Valid() && (View() == old(View()) || (failure.Some? && View() == Terminated(old(View()), credential)))
      ensures failure.Some? ==>
                (failure.value == PolicyInactive && old(activeChecks) == 0) || RefusalReason(failure.value, response, credential)
      ensures failure.None? <==> old(activeChecks) >= 1 && !Unsupported(response, credential)
      ensures failure.None? ==> activeChecks == old(activeChecks) - 1
    {
      hide Terminated, Valid;
      var active := OwnerActive();
      if !active {
        return Some(PolicyInactive);
      }
      if response.hasCode || (response.device.Some? && credential != NoCredential) {
        TerminateDevice(credential);
        return Some(HandleUnsupported);
      }
      return if response.tooLarge then Some(ResponseTooLarge) else None;
    }

    method IssueSlotPart(scope: Scope, slot: Option<SlotId>, f: SlotFaults)
      returns (h: Option<Handle>, failure: Option<Failure>)
      requires Valid()
      modifies this
      ensures Valid() && Adds(old(arena), arena, Part(h, SlotFor(scope, slot)))
      ensures (h.Some? ==> slot.Some?) && (failure.None? ==> (h.Some? <==> slot.Some?) && dead == old(dead))
      ensures old(dead) <= dead <= old(dead) + SlotSecret(slot)
      ensures failure.Some? ==>
                Lacking(failure.value, old(activeChecks), 2 * Size(slot), |old(arena)|, Size(slot)) || SlotReason(failure.value, scope, slot, f)
      ensures failure.None? <==>
              SlotOk(scope, slot, f) && |old(arena)| + Size(slot) <= LIMIT && 2 * Size(slot) <= old(activeChecks)
      ensures failure.None? ==> activeChecks == old(activeChecks) - 2 * Size(slot) && |arena| == |old(arena)| + Size(slot)
    {
      assert |arena| <= LIMIT;
      hide Valid, Adds;
      NothingAdded(arena);
      h, failure := None, None;
      if slot.Some? {
        var issued := IssueOwnerSlot(scope, slot.value, f);
        if issued.Err? {
          return None, Some(issued.error);
        }
        OneAdded(old(arena), issued.value, SecretSlot(scope.owner.id, slot.value));
        h := Some(issued.value);
      }
    }

    method IssueDevicePart(scope: Scope, device: Option<Native>, f: DeviceFaults)
      returns (h: Option<Handle>, failure: Option<Failure>)
      requires Valid()
      modifies this
      ensures Valid() && Adds(old(arena), arena, Part(h, DeviceFor(scope, device)))
      ensures (h.Some? ==> device.Some?) && (failure.None? ==> (h.Some? <==> device.Some?) && dead == old(dead))
      ensures old(dead) <= dead <= old(dead) + DeviceSecret(device)
      ensures failure.Some? ==>
                Lacking(failure.value, old(activeChecks), 2 * Size(device), |old(arena)|, Size(device))
                || DeviceReason(failure.value, scope, device, f)
      ensures failure.None? <==>
              DeviceOk(scope, device, f) && |old(arena)| + Size(device) <= LIMIT && 2 * Size(device) <= old(activeChecks)
      ensures failure.None? ==> activeChecks == old(activeChecks) - 2 * Size(device) && |arena| == |old(arena)| + Size(device)
    {
      assert |arena| <= LIMIT;
      hide Valid, Adds;
      NothingAdded(arena);
      h, failure := None, None;
      if device.Some? {
        var issued := IssueDevice(scope, device.value, f);
        if issued.Err? {
          return None, Some(issued.error);
        }
        OneAdded(old(arena), issued.value, DeviceSession(scope.owner.id, device.value, GrantOf(scope)));
        h := Some(issued.value);
      }
    }

    /** Issue what the response carries, until the first failure; `p` lists what was issued. */
    method IssueAll(scope: Scope, response: Response, f: Faults) returns (p: Published, failure: Option<Failure>)
      requires Valid()
      modifies this
      ensures Valid() && p.code.None? && p.verifier.None? && Backed(response, p)
      ensures Adds(old(arena), arena, ResponseParts(scope, response, p))
      ensures old(dead) <= dead <= old(dead) + ResponseSecrets(response)
      ensures failure.None? ==> FullyPublished(Sent(response, None), false, p) && dead == old(dead)
      ensures failure.Some? ==>
                Lacking(failure.value, old(activeChecks), 2 * Parcels(response) + 1, |old(arena)|, Parcels(response))
                || ResponseReason(failure.value, scope, response, f)
      ensures failure.None? <==> IssueOk(scope, |old(arena)|, old(activeChecks), response, f)
      ensures failure.None? ==>
                activeChecks == old(activeChecks) - 2 * Parcels(response) - 1 && |arena| == |old(arena)| + Parcels(response)
    {
      hide Valid, Adds, Part, SlotFor, DeviceFor, SlotSecret, DeviceSecret, SlotOk, DeviceOk;
      p := Nothing;
      var access, refresh, device;
      access, failure := IssueSlotPart(scope, response.access, f.access);
      p := p.(access := access);
      PartsSoFar(scope, response, p);
      if failure.Some? {
        return;
      }
      ghost var first := arena;
      refresh, failure := IssueSlotPart(scope, response.refresh, f.refresh);
      AddsMore(old(arena), first, arena, Part(access, SlotFor(scope, response.access)), Part(refresh, SlotFor(scope, response.refresh)));
      p := p.(refresh := refresh);
      PartsSoFar(scope, response, p);
      if failure.Some? {
        return;
      }
      ghost var second, parts := arena, ResponseParts(scope, response, p);
      device, failure := IssueDevicePart(scope, response.device, f.device);
      AddsMore(old(arena), second, arena, parts, Part(device, DeviceFor(scope, response.device)));
      p := p.(device := device);
      PartsSoFar(scope, response, p);
      if failure.Some? {
        return;
      }
      var active := OwnerActive();
      failure := if active then None else Some(PolicyInactive);
    }

    /** With a capture the pair is published too, and the owner is checked twice more. */
    method CapturePair(scope: Scope, generation: nat, pair: Option<Native>, f: PairFaults, q: Published)
      returns (p: Published, failure: Option<Failure>)
      requires Valid() && q.code.None? && q.verifier.None?
      modifies this
      ensures Valid() && p == q.(code := p.code, verifier := p.verifier) && (p.code.Some? <==> p.verifier.Some?)
      ensures Adds(old(arena), arena, PairParts(scope, pair, p))
      ensures p.code.Some? ==> pair.Some? && dead == old(dead)
      ensures failure.None? ==> (p.code.Some? <==> pair.Some?) && dead == old(dead)
      ensures failure.Some? && p.code.None? ==>
                dead == old(dead) + (if failure.value == PairRefused then {} else PairSecret(pair))
      ensures failure.Some? && failure.value == PairRefused ==> pair.Some? && p.code.None?
      ensures failure.Some? ==>
                Lacking(failure.value, old(activeChecks), 3 * Size(pair) + 2, |old(arena)|, 2 * Size(pair))
                || PairReason(failure.value, bound, scope, generation, pair, f)
      ensures failure.None? <==> CaptureOk(bound, scope, generation, |old(arena)|, old(activeChecks), pair, f)
    {
      assert |arena| <= LIMIT;
      hide Valid, Adds, PairParts, PairBound;
      p, failure := q, None;
      if pair.Some? {
        var published := PublishPair(scope, generation, pair.value, f);
        if published.Err? {
          NothingAdded(arena);
          NoPairParts(scope, pair, q);
          return q, Some(published.error);
        }
        p := q.(code := Some(published.value.0), verifier := Some(published.value.1));
        BothPairParts(scope, pair, p);
      } else {
        NothingAdded(arena);
        NoPairParts(scope, pair, p);
      }
      var first := OwnerActive();
      var second := OwnerActive();
      failure := if first && second then None else Some(PolicyInactive);
    }

    /** Undo of a failed call. */
    method Withdraw(scope: Scope, sent: Sent, credential: Credential, p: Published, left: Option<Native>)
      requires Valid() && Backed(sent.response, p) && (p.code.Some? ==> sent.pair.Some?)
      modifies this`arena, this`dead
      ensures Valid() && View() == Withdrawn(old(View()), scope, sent, credential, p, left)
    {
      hide Valid, Terminated, ClosedOpt, RolledBack, ResponseSecrets, ClosedAll, ResponseParts, Backed;
      TerminateDevice(credential);
      PublishedClosed(View(), scope, sent.response, p);
      CloseIssued(p.access, SlotKind);
      CloseIssued(p.refresh, SlotKind);
      CloseIssued(p.device, DeviceKind);
      KillBoth(View(), ResponseSecrets(sent.response), PairSecret(left));
      RevokeResponse(sent.response);
      if left.Some? {
        RevokePair(left.value);
      }
      if p.code.Some? {
        RollbackFlow(sent.pair.value, None, p.verifier, p.code);
      }
    }

    /**
      The part of a transport call after the send.  On success every handle returned is new,
      belongs to the owner and stands for the response's own part, and nothing was revoked.
      On any failure the arena holds nothing that this call added, and exactly what the
      response carried is dead, together with the device session that the call used.  The
      pair is dead, too, unless its publication was refused.
     */
    method PublishResponse(scope: Scope, generation: nat, sent: Sent, capture: bool, credential: Credential, f: Faults)
      returns (r: Result<Published, Failure>)
      requires Valid()
      modifies this
      ensures Valid()
      ensures r.Ok? ==> FullyPublished(sent, capture, r.value) && dead == old(dead)
                        && Adds(old(arena), arena, Issued(scope, sent, r.value))
      ensures r.Err? ==> View() == AfterFailure(old(View()), sent, credential, r.error)
      ensures r.Err? ==>
                PublishReason(r.error, bound, |old(arena)|, old(activeChecks), scope, generation, sent, capture, credential, f)
      ensures r.Ok? <==>
              Publishable(bound, |old(arena)|, old(activeChecks), scope, generation, sent, capture, credential, f)
    {
      assert Backed(sent.response, Nothing);
      hide Valid, Adds, Terminated, OwnSecret, ResponseSecrets, ResponseParts, PairParts, Withdrawn, Backed, AfterFailure, PairBound, Publishable,
        IssueOk, CaptureOk, Unsupported, Parcels, PublishReason, RefusalReason, ResponseReason, PairReason, Lacking;
      PublishableInTurn(bound, |arena|, activeChecks, scope, generation, sent, capture, credential, f);
      ghost var start, checks := View(), activeChecks;
      var failure := Refuse(sent.response, credential);
      if failure.Some? {
        RefusedFor(failure.value, bound, |start.arena|, checks, scope, generation, sent, capture, credential, f);
        RefusedCall(start, View(), scope, sent, credential, failure.value);
        Withdraw(scope, sent, credential, Nothing, sent.pair);
        return Err(failure.value);
      }
      var p;
      p, failure := IssueAll(scope, sent.response, f);
      NoPairParts(scope, sent.pair, p);
      assert Issued(scope, sent, p) == ResponseParts(scope, sent.response, p);
      if failure.Some? {
        IssueFailedFor(failure.value, bound, |start.arena|, checks, scope, generation, sent, capture, credential, f);
        FailedCall(start, View(), scope, sent, credential, p, sent.pair, failure.value);
        Withdraw(scope, sent, credential, p, sent.pair);
        return Err(failure.value);
      }
      if !capture {
        return Ok(p);
      }
      ghost var mid, q := View(), p;
      p, failure := CapturePair(scope, generation, sent.pair, f.pair, p);
      SameResponseParts(scope, sent.response, q, p);
      AddsMore(start.arena, mid.arena, arena, ResponseParts(scope, sent.response, p), PairParts(scope, sent.pair, p));
      if failure.Some? {
        CaptureFailedFor(failure.value, bound, |start.arena|, checks, scope, generation, sent, credential, f);
        FailedCall(start, View(), scope, sent, credential, p, None, failure.value);
        Withdraw(scope, sent, credential, p, None);
        return Err(failure.value);
      }
      return Ok(p);
    }
  }

  /** How the end of a call changes the store: all that was sent is published, or none of it is left. */
  ghost predicate Settled(
    s: Store, s': Store, active: bool, scope: Scope, sent: Option<Sent>, capture: bool, c: Credential, r: Result<Published, Failure>)
  {
    var used := AfterUse(s, c, active);
    if r.Ok? then
      sent.Some? && FullyPublished(sent.value, capture, r.value) && s'.dead == used.dead
      && Adds(used.arena, s'.arena, Issued(scope, sent.value, r.value))
    else if sent.None? then s' == used
    else s' == Kill(Terminated(used, c), Received(sent.value))
  }

  lemma SettledEarly(
    s: Store, s': Store, active: bool, scope: Scope, sent: Option<Sent>, capture: bool, c: Credential, r: Result<Published, Failure>)
    requires r.Err? && (sent.Some? ==> !Closable(s.arena, c, active))
    requires s' == Kill(AfterUse(s, c, active), if sent.Some? then Received(sent.value) else {})
    ensures Settled(s, s', active, scope, sent, capture, c, r)
  {
    hide AfterUse, Received;
    if sent.Some? {
      UnclosedTerminates(s, c, active);
    } else {
      KillNothing(AfterUse(s, c, active));
    }
  }

  lemma SettledLate(
    s: Store, s': Store, active: bool, scope: Scope, sent: Sent, capture: bool, c: Credential, r: Result<Published, Failure>)
    requires var used := AfterUse(s, c, active);
             if r.Ok? then
               FullyPublished(sent, capture, r.value) && s'.dead == used.dead
               && Adds(used.arena, s'.arena, Issued(scope, sent, r.value))
             else r.error != PairRefused && s' == AfterFailure(used, sent, c, r.error)
    ensures Settled(s, s', active, scope, Some(sent), capture, c, r)
  {
    hide AfterUse, FullyPublished, Adds, Issued;
  }

  /** With a device session, the used session is all that a failure takes away. */
  lemma SettledDevice(
    s: Store, s': Store, active: bool, scope: Scope, sent: Option<Sent>, capture: bool, c: Credential, r: Result<Published, Failure>)
    requires Settled(s, s', active, scope, sent, capture, c, r) && r.Err? && sent.Some? && c.Device?
    ensures s' == Kill(Closed(s, c.handle, DeviceKind), Received(sent.value))
  {
    DeviceLeaves(s, c, active);
  }

  /**
    The end of a transport call: `sent` is what the send returned, if it succeeded.  A
    finished credential is closed first, whatever was sent.  After every failure nothing of
    the call is left: its handles are gone and its secrets are dead, the pair included.
   */
  method FinishTransport(vm: Vm, scope: Scope, sent: Option<Sent>, capture: bool, credential: Credential, f: Faults)
    returns (r: Result<Published, Failure>)
    requires vm.Valid() && Vouched(vm.bound, scope, capture, credential, sent)
    modifies vm
    ensures vm.Valid()
    ensures Settled(old(vm.View()), vm.View(), old(vm.activeChecks) > 0, scope, sent, capture, credential, r)
    ensures r.Ok? <==> FinishOk(vm.bound, old(vm.View()), old(vm.activeChecks), scope, sent, capture, credential, f)
    ensures r.Err? ==>
              FinishReason(r.error, vm.bound, old(vm.View()), old(vm.activeChecks), scope, sent, capture, credential, f)
  {
    ghost var start, checks := vm.View(), vm.activeChecks;
    hide AfterUse, Adds, FullyPublished, Received, Publishable, PairBound, Closable, Issued, Kill, AfterFailure, Settled,
      PublishReason, Vouched, GenerationOf, ChecksForUse;
    var closed := vm.CloseIfTerminal(credential);
    // The owner is asked once more, only to name the error of a failed send.
    var _ := vm.OwnerActive();
    assert vm.activeChecks == Less(checks, ChecksForUse(credential)) by { LessInTurn(checks, credential); }
    hide Less;
    ghost var used, left := vm.View(), vm.activeChecks;
    KillNothing(used);
    var finalized := vm.FinalizeResponse(sent, closed);
    if finalized.Err? {
      SettledEarly(start, vm.View(), checks > 0, scope, sent, capture, credential, Err(finalized.error));
      return Err(finalized.error);
    }
    r := vm.PublishResponse(scope, GenerationOf(credential), finalized.value, capture, credential, f);
    if r.Err? {
      VouchedIsNotRefused(r.error, vm.bound, |used.arena|, left, scope, finalized.value, capture, credential, f);
    }
    SettledLate(start, vm.View(), checks > 0, scope, finalized.value, capture, credential, r);
  }

  /** What came back, with the flow of a captured pair. */
  datatype Reply = Reply(response: Response, pair: Option<nat>)

  /** Only a call that asks for a capture gets a pair, promoted from the session it used. */
  function Receive(reply: Option<Reply>, device: Native, capture: bool): Option<Sent> {
    if reply.None? then None
    else
      var pair := reply.value.pair;
      Some(Sent(reply.value.response, if capture && pair.Some? then Some(Promote(device, pair.value)) else None))
  }

  /** The owner behind a policy handle, bound, active and admitting the credential. */
  method PolicyOwner(vm: Vm, policy: Handle, credential: CredentialId) returns (r: Result<Scope, Failure>)
    requires vm.Valid()
    modifies vm`activeChecks
    ensures vm.Valid()
    ensures r.Ok? <==> PolicyOf(vm.bound, vm.arena, policy).Some? && old(vm.activeChecks) >= 2
                       && credential in PolicyOf(vm.bound, vm.arena, policy).value.admits
    ensures r.Ok? ==> r.value == Scope(PolicyOf(vm.bound, vm.arena, policy).value, credential)
                      && vm.bound == Some(r.value.owner) && r.value.Admitted() && vm.activeChecks == old(vm.activeChecks) - 2
    ensures r.Err? && PolicyOf(vm.bound, vm.arena, policy).Some? ==> vm.activeChecks == Less(old(vm.activeChecks), 2)
    ensures r.Err? ==> PolicyReason(r.error, vm.bound, vm.arena, old(vm.activeChecks), policy, credential)
  {
    var owner := PolicyOf(vm.bound, vm.arena, policy);
    if owner.None? {
      return Err(if policy !in vm.arena || !vm.arena[policy].Policy? then ResourceInvalid
                 else if vm.bound.None? then HostUnbound
                 else OwnerMismatch);
    }
    var borrowed := vm.OwnerActive();
    if !borrowed {
      return Err(PolicyInactive);
    }
    var active := vm.OwnerActive();
    if !active {
      return Err(PolicyInactive);
    }
    return if credential in owner.value.admits then Ok(Scope(owner.value, credential)) else Err(NotAdmitted);
  }

  /** The session with which a call gets as far as the send: both handles resolve and the request is admitted. */
  function Sending(
    bound: Option<Owner>, a: Arena, checks: nat, policy: Handle, credential: CredentialId, device: Handle, live: bool,
    stays: bool, prepared: bool): (c: Option<Credential>)
    ensures c.Some? ==> bound.Some? && c.value.Device? && c.value.handle == device && checks >= 2
  {
    var owner := PolicyOf(bound, a, policy);
    if owner.None? || credential !in owner.value.admits || checks < 2 || !prepared || !live then None
    else if !Entitled(bound, a, Scope(owner.value, credential), device) then None
    else Some(Device(device, a[device].device, owner.value.generations[credential], stays))
  }

  /** Why a call does not get as far as the send. */
  predicate BlockReason(
    e: Failure, bound: Option<Owner>, a: Arena, checks: nat, policy: Handle, credential: CredentialId, device: Handle,
    live: bool, prepared: bool)
  {
    || PolicyReason(e, bound, a, checks, policy, credential)
    || (var owner := PolicyOf(bound, a, policy);
        owner.Some? && ResolveReason(e, bound, a, Scope(owner.value, credential), device, live))
    || (e == RequestRefused && !prepared)
  }

  /** A call that gets no further takes its session away: for an owner found inactive, or a session that is not live. */
  predicate Reclaims(
    bound: Option<Owner>, a: Arena, checks: nat, policy: Handle, credential: CredentialId, device: Handle, live: bool)
  {
    var owner := PolicyOf(bound, a, policy);
    && owner.Some? && (checks <= 2 || (credential in owner.value.admits && !live))
    && Entitled(bound, a, Scope(owner.value, credential), device)
  }

  function ClosedIf(s: Store, device: Handle, closes: bool): Store { if closes then Closed(s, device, DeviceKind) else s }

  /**
    A whole transport call with a device session, from the policy handle on: the only kind
    of call that can capture a pair.  `prepared` tells that the request was admitted.
    After every failure the arena is as before, at most without the session that was used,
    and whatever was received is dead, the pair included.
   */
  method DeviceTransport(
    vm: Vm, policy: Handle, credential: CredentialId, device: Handle, live: bool, stays: bool, prepared: bool,
    reply: Option<Reply>, capture: bool, f: Faults)
    returns (r: Result<Published, Failure>)
    requires vm.Valid()
    modifies vm
    ensures vm.Valid()
    ensures var c := Sending(vm.bound, old(vm.arena), old(vm.activeChecks), policy, credential, device, live, stays, prepared);
            if c.None? then
              && r.Err?
              && BlockReason(r.error, vm.bound, old(vm.arena), old(vm.activeChecks), policy, credential, device, live, prepared)
              && var closes := Reclaims(vm.bound, old(vm.arena), old(vm.activeChecks), policy, credential, device, live);
              vm.View() == ClosedIf(old(vm.View()), device, closes)
            else
              var scope, checks := Scope(vm.bound.value, credential), old(vm.activeChecks) - 2;
              var sent := Receive(reply, c.value.device, capture);
              && (r.Ok? <==> FinishOk(vm.bound, old(vm.View()), checks, scope, sent, capture, c.value, f))
              && (r.Err? ==> FinishReason(r.error, vm.bound, old(vm.View()), checks, scope, sent, capture, c.value, f))
              && Settled(old(vm.View()), vm.View(), checks > 0, scope, sent, capture, c.value, r)
              && (r.Err? && sent.Some? ==> vm.View() == Kill(Closed(old(vm.View()), device, DeviceKind), Received(sent.value)))
  {
    hide Settled, FinishOk, FinishReason, Closed, Resolve, Kill, Received, PolicyReason, ResolveReason, Entitled;
    var owner := PolicyOwner(vm, policy, credential);
    if owner.Err? {
      Reclaim(vm, policy, credential, device);
      return Err(owner.error);
    }
    var scope := owner.value;
    var resolved := Resolve(vm.bound, vm.arena, scope, device, live, stays);
    ResolvedExactly(vm.bound, vm.arena, scope, device, live, stays);
    ResolvedExactly(vm.bound, vm.arena, scope, device, true, true);
    if resolved.Err? {
      // A session that matches but is no longer live loses its resource.
      if Resolve(vm.bound, vm.arena, scope, device, true, true).Ok? {
        var _ := vm.Close(device, DeviceKind);
      }
      return Err(resolved.error);
    }
    var used := resolved.value;
    if !prepared {
      var active := vm.OwnerActive();
      if !active {
        var _ := vm.Close(device, DeviceKind);
      }
      return Err(RequestRefused);
    }
    if reply.Some? && reply.value.pair.Some? {
      PromotedIsBound(vm.bound, vm.arena, scope, device, live, stays, reply.value.pair.value);
    }
    ghost var start, checks := vm.View(), vm.activeChecks;
    var sent := Receive(reply, used.device, capture);
    r := FinishTransport(vm, scope, sent, capture, used, f);
    if r.Err? && sent.Some? {
      SettledDevice(start, vm.View(), checks > 0, scope, sent, capture, used, r);
    }
  }

  /** A call that fails for an inactive owner takes back the session it was given. */
  method Reclaim(vm: Vm, policy: Handle, credential: CredentialId, device: Handle)
    requires vm.Valid()
    modifies vm
    ensures vm.Valid()
    ensures var owner := PolicyOf(vm.bound, old(vm.arena), policy);
            vm.View() == ClosedIf(old(vm.View()), device,
                                  owner.Some? && old(vm.activeChecks) == 0
                                  && Entitled(vm.bound, old(vm.arena), Scope(owner.value, credential), device))
  {
    hide Closed, Resolve, Entitled;
    var owner := PolicyOf(vm.bound, vm.arena, policy);
    if owner.None? {
      return;
    }
    var active := vm.OwnerActive();
    ResolvedExactly(vm.bound, vm.arena, Scope(owner.value, credential), device, true, true);
    if !active && Resolve(vm.bound, vm.arena, Scope(owner.value, credential), device, true, true).Ok? {
      var _ := vm.Close(device, DeviceKind);
    }
  }
}
