/** Everything other clients, peers and the policy can do leaves a watched client's notices in place. */
module FlowPlaneForeign {
  import opened Counting
  import opened TunnelProtocol
  import opened Routing
  import opened FlowPlane
  import opened FlowPlaneInvariant
  import opened FlowPlaneQueues
  import opened FlowPlaneOperations
  import opened FlowPlaneDelivery
  import opened FlowPlaneRuns
  import opened FlowPlaneNotices

  // ---------------------------------------------------------------------------------------------
  // Closing in bulk

  lemma {:induction false} InvalidateGood(p: Plane, w: Watch, slot: nat, peer: PeerIdentity, reason: TerminalReason, now: int)
    requires Invariant(p) && slot <= MAXIMUM_FLOWS
    ensures Good(p, InvalidateFrom(p, slot, peer, reason, now), w)
    decreases MAXIMUM_FLOWS - slot
  {
    hide Sound, PolicyOk, Good, CloseSlot;
    if slot == MAXIMUM_FLOWS {
      GoodReflexive(p, w);
    } else if IsCommitted(p.flows[slot]) && p.flows[slot].peer == peer {
      var q := CloseSlot(p, slot, reason, now, true);
      CloseGood(p, w, slot, reason, now, true);
      CloseSlotInvariant(p, slot, reason, now, true);
      InvalidateGood(q, w, slot + 1, peer, reason, now);
      GoodTransitive(p, q, InvalidateFrom(q, slot + 1, peer, reason, now), w);
    } else {
      InvalidateGood(p, w, slot + 1, peer, reason, now);
    }
  }

  lemma GoodReflexive(p: Plane, w: Watch)
    ensures Good(p, p, w)
  {
  }

  lemma {:induction false} CloseOwnedGood(p: Plane, w: Watch, slot: nat, other: ClientId, now: int)
    requires Invariant(p) && slot <= MAXIMUM_FLOWS && other != w.id
    ensures Good(p, CloseOwnedFrom(p, slot, other, now), w)
    decreases MAXIMUM_FLOWS - slot
  {
    hide Sound, PolicyOk, Good, CloseSlot;
    if slot == MAXIMUM_FLOWS {
      GoodReflexive(p, w);
    } else if p.flows[slot].inUse && p.flows[slot].client == other {
      var q := CloseSlot(p, slot, ClientClosed, now, false);
      CloseGood(p, w, slot, ClientClosed, now, false);
      CloseSlotInvariant(p, slot, ClientClosed, now, false);
      CloseOwnedGood(q, w, slot + 1, other, now);
      GoodTransitive(p, q, CloseOwnedFrom(q, slot + 1, other, now), w);
    } else {
      CloseOwnedGood(p, w, slot + 1, other, now);
    }
  }

  lemma DestroyGood(p: Plane, w: Watch, other: ClientId, now: int)
    requires Invariant(p) && other != w.id
    ensures Good(p, DestroyClient(p, other, now), w)
  {
    GoodReflexive(p, w);
    if IsClient(p.clients, other) {
      var closed := CloseOwnedFrom(p, 0, other, now);
      CloseOwnedGood(p, w, 0, other, now);
      CloseOwnedInvariant(p, 0, other, now);
      DropOther(closed, w, other);
      hide Good, Invariant, CloseOwnedFrom, ReleaseEntries;
      GoodTransitive(p, closed, DestroyClient(p, other, now), w);
    }
  }

  lemma DropOther(p: Plane, w: Watch, other: ClientId)
    requires IsClient(p.clients, other) && other != w.id
    ensures Good(p, p.(clients := p.clients[other.slot := FREE_CLIENT],
                       slabs := ReleaseEntries(p.slabs, p.clients[other.slot].queue, Anything())), w)
  {
    hide ReleaseEntries;
    var q := p.(clients := p.clients[other.slot := FREE_CLIENT],
                slabs := ReleaseEntries(p.slabs, p.clients[other.slot].queue, Anything()));
    if Mine(p, w) {
      if other.slot == w.id.slot {
        OneClientPerSlot(p.clients, other, w.id);
      }
      assert q.clients[w.id.slot] == p.clients[w.id.slot];
      SteadyGood(p, q, w);
    }
  }

  // ---------------------------------------------------------------------------------------------
  // Policy

  lemma ApplyPolicyAtGood(p: Plane, w: Watch, slot: nat, now: int)
    requires Sound(p) && slot < MAXIMUM_FLOWS
    ensures Good(p, ApplyPolicyAt(p, slot, now), w)
  {
    GoodReflexive(p, w);
    CloseGood(p, w, slot, PolicyInvalidated, now, true);
    hide Sound, CloseSlot, Covered;
    var restamped := p.(flows := p.flows[slot := p.flows[slot].(policyGeneration := p.policyGeneration)]);
    SteadyGood(p, restamped, w);
  }

  lemma {:induction false} ApplyPolicyGood(p: Plane, w: Watch, slot: nat, now: int)
    requires Sound(p) && slot <= MAXIMUM_FLOWS
    ensures Good(p, ApplyPolicyFrom(p, slot, now), w)
    decreases MAXIMUM_FLOWS - slot
  {
    hide Sound, Good, ApplyPolicyAt;
    if slot == MAXIMUM_FLOWS {
      GoodReflexive(p, w);
    } else {
      var q := ApplyPolicyAt(p, slot, now);
      ApplyPolicyAtGood(p, w, slot, now);
      ApplyPolicyAtSound(p, slot, now);
      ApplyPolicyGood(q, w, slot + 1, now);
      GoodTransitive(p, q, ApplyPolicyFrom(q, slot + 1, now), w);
    }
  }

  lemma {:induction false} AnnounceGood(p: Plane, w: Watch, slot: nat, generation: U32)
    requires ClientsOk(p.clients) && slot <= MAXIMUM_CLIENT_CONTEXTS
    ensures Good(p, p.(clients := AnnouncePolicyFrom(p.clients, slot, generation)), w)
    decreases MAXIMUM_CLIENT_CONTEXTS - slot
  {
    hide Good, EnqueueControl, ClientsOk;
    if slot == MAXIMUM_CLIENT_CONTEXTS {
      GoodReflexive(p, w);
    } else if !p.clients[slot].inUse {
      AnnounceGood(p, w, slot + 1, generation);
    } else {
      var id := ClientId(slot, p.clients[slot].generation);
      var q := p.(clients := EnqueueControl(p.clients, id, PolicyRecord(generation)));
      if id == w.id {
        PushGood(p, w, PolicyRecord(generation));
      } else {
        PushOther(p, w, id, PolicyRecord(generation));
      }
      EnqueueControlOk(p.clients, id, PolicyRecord(generation));
      AnnounceGood(q, w, slot + 1, generation);
      GoodTransitive(p, q, q.(clients := AnnouncePolicyFrom(q.clients, slot + 1, generation)), w);
    }
  }

  lemma RefreshGood(p: Plane, w: Watch, input: PolicyInput, now: int)
    requires Invariant(p)
    ensures Good(p, RefreshPolicy(p, input, now), w)
  {
    GoodReflexive(p, w);
    var policy := ResolvePolicy(input);
    if policy != p.policy {
      var renewed := p.(policy := policy, policyGeneration := p.nextPolicyGeneration,
                        nextPolicyGeneration := NextNonZero(p.nextPolicyGeneration));
      assert Sound(renewed);
      SteadyGood(p, renewed, w);
      ApplyPolicyGood(renewed, w, 0, now);
      ApplyPolicyInvariant(renewed, 0, now);
      var applied := ApplyPolicyFrom(renewed, 0, now);
      AnnounceGood(applied, w, 0, applied.policyGeneration);
      hide Good, Invariant, Sound, ApplyPolicyFrom, AnnouncePolicyFrom, ResolvePolicy;
      GoodTransitive(p, renewed, applied, w);
      GoodTransitive(p, applied, RefreshPolicy(p, input, now), w);
    }
  }

  // ---------------------------------------------------------------------------------------------
  // Capacity

  /** One flow woken: its client gets a writable notice in place of the mark. */
  lemma WakeGood(p: Plane, w: Watch, slot: nat, peer: PeerIdentity)
    requires Invariant(p) && slot < MAXIMUM_FLOWS && AwaitsCapacity(p.flows[slot], peer)
    ensures Good(p, SetWaiter(p, slot, false).(clients := EnqueueControl(p.clients, p.flows[slot].client, WritableRecord(slot, p.flows[slot]))), w)
  {
    var f := p.flows[slot];
    var record := WritableRecord(slot, f);
    var marked := SetWaiter(p, slot, false);
    var q := marked.(clients := EnqueueControl(p.clients, f.client, record));
    if Mine(p, w) {
      if f.client == w.id {
        assert Owns(f, w);
        WakeWatched(p, w, slot, record);
      } else {
        SteadyGood(p, marked, w);
        PushOther(marked, w, f.client, record);
        hide Invariant, EnqueueControl;
        GoodTransitive(p, marked, q, w);
      }
    }
  }

  lemma WakeWatched(p: Plane, w: Watch, slot: nat, record: CompletionRecord)
    requires Invariant(p) && Mine(p, w) && slot < MAXIMUM_FLOWS && Owns(p.flows[slot], w)
    requires record.kind == Writable && record.flow == w.handle
    ensures Good(p, SetWaiter(p, slot, false).(clients := EnqueueControl(p.clients, w.id, record)), w)
  {
    var marked := SetWaiter(p, slot, false);
    assert Mine(marked, w) by {
      hide HasNotice, KeysOk;
    }
    assert LiveFlow(p, w) ==> LiveFlow(marked, w);
    PushMine(marked, w, record);
    hide Invariant, EnqueueControl, HasNotice, Mine;
  }

  lemma {:induction false} NotifyGood(p: Plane, w: Watch, slot: nat, peer: PeerIdentity)
    requires Invariant(p) && slot <= MAXIMUM_FLOWS
    ensures Good(p, NotifyCapacityFrom(p, slot, peer), w)
    decreases MAXIMUM_FLOWS - slot
  {
    if slot == MAXIMUM_FLOWS {
      GoodReflexive(p, w);
    } else if AwaitsCapacity(p.flows[slot], peer) {
      var f := p.flows[slot];
      var q := SetWaiter(p, slot, false).(clients := EnqueueControl(p.clients, f.client, WritableRecord(slot, f)));
      WakeGood(p, w, slot, peer);
      SetWaiterInvariant(p, slot, false);
      EnqueueControlOk(p.clients, f.client, WritableRecord(slot, f));
      ReplaceClientsInvariant(SetWaiter(p, slot, false), q.clients);
      hide Invariant, Good, EnqueueControl;
      NotifyGood(q, w, slot + 1, peer);
      GoodTransitive(p, q, NotifyCapacityFrom(q, slot + 1, peer), w);
    } else {
      hide Invariant, Good;
      NotifyGood(p, w, slot + 1, peer);
    }
  }

  /** One turn of the capacity loop. */
  function WokenAt(p: Plane, slot: nat, peer: PeerIdentity): Plane
    requires slot < MAXIMUM_FLOWS
  {
    if !AwaitsCapacity(p.flows[slot], peer) then p
    else SetWaiter(p, slot, false).(clients := EnqueueControl(p.clients, p.flows[slot].client, WritableRecord(slot, p.flows[slot])))
  }

  lemma WokenInvariant(p: Plane, slot: nat, peer: PeerIdentity)
    requires Invariant(p) && slot < MAXIMUM_FLOWS
    ensures Invariant(WokenAt(p, slot, peer))
  {
    var f := p.flows[slot];
    if AwaitsCapacity(f, peer) {
      SetWaiterInvariant(p, slot, false);
      EnqueueControlOk(p.clients, f.client, WritableRecord(slot, f));
      ReplaceClientsInvariant(SetWaiter(p, slot, false), EnqueueControl(p.clients, f.client, WritableRecord(slot, f)));
    }
  }

  /** A turn keeps the watched client's notices, and its own turn gives it a writable notice. */
  lemma WokenNotices(p: Plane, w: Watch, slot: nat, peer: PeerIdentity)
    requires Invariant(p) && Mine(p, w) && slot < MAXIMUM_FLOWS
    ensures var q := WokenAt(p, slot, peer);
            Mine(q, w) && (HasNotice(MyQueue(p, w), Writable, w.handle) ==> HasNotice(MyQueue(q, w), Writable, w.handle)) &&
            (slot != w.handle % 16 ==> q.flows[w.handle % 16] == p.flows[w.handle % 16]) &&
            (slot == w.handle % 16 && LiveFlow(p, w) && AwaitsCapacity(p.flows[slot], peer) ==>
               HasNotice(MyQueue(q, w), Writable, w.handle))
  {
    var f := p.flows[slot];
    if AwaitsCapacity(f, peer) {
      WakeGood(p, w, slot, peer);
      var marked := SetWaiter(p, slot, false);
      if f.client == w.id {
        assert Owns(f, w);
        assert Mine(marked, w) by {
          hide HasNotice, KeysOk;
        }
        PushMine(marked, w, WritableRecord(slot, f));
      } else if f.client.slot == w.id.slot && IsClient(p.clients, f.client) {
        OneClientPerSlot(p.clients, f.client, w.id);
      }
      hide Invariant, HasNotice, ControlPushed, KeysOk;
    }
  }

  /** Freed capacity reaches a marked flow: its client has a writable notice afterwards. */
  lemma {:induction false} CapacityReaches(p: Plane, w: Watch, slot: nat, peer: PeerIdentity)
    requires Invariant(p) && Mine(p, w) && slot <= MAXIMUM_FLOWS
    requires HasNotice(MyQueue(p, w), Writable, w.handle) ||
             (slot <= w.handle % 16 && LiveFlow(p, w) && AwaitsCapacity(p.flows[w.handle % 16], peer))
    ensures HasNotice(MyQueue(NotifyCapacityFrom(p, slot, peer), w), Writable, w.handle)
    decreases MAXIMUM_FLOWS - slot
  {
    if slot < MAXIMUM_FLOWS {
      WokenInvariant(p, slot, peer);
      WokenNotices(p, w, slot, peer);
      assert NotifyCapacityFrom(p, slot, peer) == NotifyCapacityFrom(WokenAt(p, slot, peer), slot + 1, peer);
      hide Invariant, Mine, HasNotice, WokenAt;
      CapacityReaches(WokenAt(p, slot, peer), w, slot + 1, peer);
    }
  }

  // ---------------------------------------------------------------------------------------------
  // Other clients

  lemma {:induction false} CreateGood(p: Plane, w: Watch, slot: nat)
    requires slot <= MAXIMUM_CLIENT_CONTEXTS
    ensures Good(p, CreateClientAt(p, slot).0, w)
    decreases MAXIMUM_CLIENT_CONTEXTS - slot
  {
    GoodReflexive(p, w);
    if slot < MAXIMUM_CLIENT_CONTEXTS {
      if p.clients[slot].inUse {
        CreateGood(p, w, slot + 1);
      } else if Mine(p, w) {
        SteadyGood(p, CreateClientAt(p, slot).0, w);
      }
    }
  }

  lemma ReserveGood(p: Plane, w: Watch, other: ClientId, request: OpenRequest, now: int, availability: Availability)
    requires Invariant(p) && other != w.id
    ensures Good(p, Reserve(p, other, request, now, availability).0, w)
  {
    var q := Reserve(p, other, request, now, availability).0;
    forall s | 0 <= s < MAXIMUM_FLOWS ensures FlowSteady(p.flows[s], q.flows[s], w) {
      ReserveTouches(p, other, request, now, availability, s);
    }
    ReserveTouches(p, other, request, now, availability, 0);
    hide Reserve;
    SteadyGood(p, q, w);
  }

  lemma ReserveTouches(p: Plane, id: ClientId, request: OpenRequest, now: int, availability: Availability, s: nat)
    requires s < MAXIMUM_FLOWS
    ensures var q := Reserve(p, id, request, now, availability).0;
            q.clients == p.clients &&
            (q.flows[s] == p.flows[s] || (!IsLive(p.flows[s]) && q.flows[s].client == id && q.flows[s].pending))
  {
    hide Count, AllocatePort, Covered, ClearExpired;
  }

  lemma CommitGood(p: Plane, w: Watch, r: Reservation)
    requires r.client != w.id
    ensures Good(p, Commit(p, r).0, w) && Good(p, Cancel(p, r), w)
  {
    SteadyGood(p, Commit(p, r).0, w);
    SteadyGood(p, Cancel(p, r), w);
  }

  lemma CloseFlowGood(p: Plane, w: Watch, other: ClientId, handle: nat, now: int)
    requires Invariant(p) && other != w.id
    ensures Good(p, CloseFlow(p, other, handle, now).0, w)
  {
    GoodReflexive(p, w);
    var slot := FindFlow(p, other, handle);
    if slot.Some? {
      CloseGood(p, w, slot.value, ClientClosed, now, true);
    }
  }

  lemma PrepareGood(p: Plane, w: Watch, other: ClientId, handle: nat, declaredSize: nat, size: nat, availability: Availability)
    requires other != w.id
    ensures Good(p, PrepareSend(p, other, handle, declaredSize, size, availability).0, w)
  {
    SteadyGood(p, PrepareSend(p, other, handle, declaredSize, size, availability).0, w);
  }

  lemma CompleteGood(p: Plane, w: Watch, prepared: Prepared, status: ProtocolStatus)
    requires prepared.flow != w.handle
    ensures Good(p, CompleteSend(p, prepared, status), w)
  {
    if Mine(p, w) {
      var q := CompleteSend(p, prepared, status);
      var slot := FindToken(p.flows, prepared.flow);
      if slot.Some? {
        assert !Owns(p.flows[slot.value], w);
      }
      SteadyGood(p, q, w);
    }
  }

  lemma DeliverGood(p: Plane, w: Watch, peer: PeerIdentity, policyGeneration: U32, token: nat, remote: Endpoint, payload: seq<Byte>)
    requires Invariant(p)
    ensures Good(p, Deliver(p, peer, policyGeneration, token, remote, payload).0, w)
  {
    DeliverOutcome(p, peer, policyGeneration, token, remote, payload);
    var (q, d) := Deliver(p, peer, policyGeneration, token, remote, payload);
    hide Invariant, Deliver;
    if d == Delivered {
      StoreGood(p, w, token % 16, FreeSlab(p.slabs, 0), payload);
    } else {
      GoodReflexive(p, w);
    }
  }

  lemma StoreGood(p: Plane, w: Watch, slot: nat, slab: nat, payload: seq<Byte>)
    requires slot < MAXIMUM_FLOWS && slab < INBOUND_SLAB_COUNT && p.flows[slot].client.slot < MAXIMUM_CLIENT_CONTEXTS
    ensures Good(p, StoreDatagram(p, slot, slab, payload), w)
  {
    var q := StoreDatagram(p, slot, slab, payload);
    if WatchOk(w) {
      forall e | !IsData(e) ensures e in MyQueue(p, w) <==> e in MyQueue(q, w) {
      }
    }
    SteadyGood(p, q, w);
  }

  lemma PopGood(p: Plane, w: Watch, other: ClientId)
    requires IsClient(p.clients, other) && p.clients[other.slot].queue != [] && other != w.id
    ensures Good(p, PopFront(p, other), w)
  {
    var q := PopFront(p, other);
    if Mine(p, w) {
      if other.slot == w.id.slot {
        OneClientPerSlot(p.clients, other, w.id);
      }
      assert q.clients[w.id.slot] == p.clients[w.id.slot];
      SteadyGood(p, q, w);
    }
  }

  lemma {:induction false} DrainGood(p: Plane, w: Watch, other: ClientId, records: nat, capacity: nat, out: Drained)
    requires IsClient(p.clients, other) && other != w.id
    ensures Good(p, Drain(p, other, records, capacity, out).0, w)
    decreases |p.clients[other.slot].queue|
  {
    var queue := p.clients[other.slot].queue;
    if |out.records| < records && queue != [] && capacity - |out.payload| >= |PayloadOf(p.slabs, queue[0])| {
      PopGood(p, w, other);
      var q := PopFront(p, other);
      DrainGood(q, w, other, records, capacity, WithEntry(p.slabs, queue[0], out));
      hide Good, PopFront, WithEntry;
      GoodTransitive(p, q, Drain(q, other, records, capacity, WithEntry(p.slabs, queue[0], out)).0, w);
    } else {
      GoodReflexive(p, w);
    }
  }

  lemma ReceiveGood(p: Plane, w: Watch, other: ClientId, records: nat, capacity: nat)
    requires other != w.id
    ensures Good(p, ServeReceive(p, other, records, capacity).0, w)
  {
    GoodReflexive(p, w);
    var q := Receive(p, other, records, capacity).0;
    assert Good(p, q, w) by {
      if IsClient(p.clients, other) && records > 0 {
        DrainGood(p, w, other, records, capacity, Drained([], []));
      }
    }
    var r := ServeReceive(p, other, records, capacity).0;
    hide Receive;
    assert forall e: Entry :: e in [] ==> false;
    SteadyGood(q, r, w);
    GoodTransitive(p, q, r, w);
  }

  // ---------------------------------------------------------------------------------------------
  // All of it

  /** An action that the watched client does not take itself. */
  predicate Foreign(a: Action, w: Watch) {
    match a
    case ClientOpened => true
    case ClientDestroyed(id, _) => id != w.id
    case PolicyRefreshed(_, _) => true
    case FlowReserved(id, _, _, _) => id != w.id
    case FlowCommitted(r) => r.client != w.id
    case FlowCancelled(r) => r.client != w.id
    case FlowClosedBy(id, _, _) => id != w.id
    case PeerInvalidated(_, _, _) => true
    case SendPrepared(id, _, _, _, _) => id != w.id
    case SendCompleted(prepared, _) => prepared.flow != w.handle
    case CapacityFreed(_) => true
    case DatagramArrived(_, _, _, _, _) => true
    case CompletionsReceived(id, _, _) => id != w.id
  }

  /** No foreign action loses the watched client's notices. */
  lemma ForeignGood(p: Plane, w: Watch, a: Action)
    requires Invariant(p) && Foreign(a, w)
    ensures Good(p, Step(p, a), w)
  {
    hide Invariant, Good, DestroyClient, RefreshPolicy, Reserve, Commit, Cancel, CloseFlow, InvalidateFrom, PrepareSend,
      CompleteSend, NotifyCapacityFrom, Deliver, ServeReceive, CreateClientAt;
    match a
    case ClientOpened => CreateGood(p, w, 0);
    case ClientDestroyed(id, now) => DestroyGood(p, w, id, now);
    case PolicyRefreshed(input, now) => RefreshGood(p, w, input, now);
    case FlowReserved(id, request, now, availability) => ReserveGood(p, w, id, request, now, availability);
    case FlowCommitted(r) => CommitGood(p, w, r);
    case FlowCancelled(r) => CommitGood(p, w, r);
    case FlowClosedBy(id, handle, now) => CloseFlowGood(p, w, id, handle, now);
    case PeerInvalidated(peer, reason, now) => InvalidateGood(p, w, 0, peer, reason, now);
    case SendPrepared(id, handle, declaredSize, size, availability) =>
      PrepareGood(p, w, id, handle, declaredSize, size, availability);
    case SendCompleted(prepared, status) => CompleteGood(p, w, prepared, status);
    case CapacityFreed(peer) => NotifyGood(p, w, 0, peer);
    case DatagramArrived(peer, generation, token, remote, payload) => DeliverGood(p, w, peer, generation, token, remote, payload);
    case CompletionsReceived(id, records, capacity) => ReceiveGood(p, w, id, records, capacity);
  }
}
