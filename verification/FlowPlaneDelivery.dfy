/** Storing and draining datagrams keeps the invariant and moves exactly one datagram at a time. */
module FlowPlaneDelivery {
  import opened Counting
  import opened TunnelProtocol
  import opened Routing
  import opened FlowPlane
  import opened FlowPlaneInvariant
  import opened FlowPlaneQueues
  import opened FlowPlaneClosing
  import opened FlowPlaneOperations

  // ---------------------------------------------------------------------------------------------
  // Storing

  /** Room for one more datagram of a committed flow. */
  ghost predicate CanStore(p: Plane, slot: nat, slab: nat, payload: seq<Byte>) {
    slot < MAXIMUM_FLOWS && slab < INBOUND_SLAB_COUNT && IsCommitted(p.flows[slot]) && !p.slabs[slab].inUse &&
    IsClient(p.clients, p.flows[slot].client) && p.flows[slot].occupancy < MAXIMUM_INBOUND_PER_FLOW &&
    p.clients[p.flows[slot].client.slot].dataCount < DATA_COMPLETION_CAPACITY &&
    |p.clients[p.flows[slot].client.slot].queue| < COMPLETION_QUEUE_CAPACITY &&
    |payload| <= MAXIMUM_UDP_PAYLOAD_BYTES
  }

  function StoredEntry(p: Plane, slot: nat, slab: nat, payload: seq<Byte>): Entry
    requires slot < MAXIMUM_FLOWS
  {
    Entry(DataRecord(slot, p.flows[slot], |payload|), slab)
  }

  lemma StoreClient(p: Plane, slot: nat, slab: nat, payload: seq<Byte>)
    requires ClientsOk(p.clients) && CanStore(p, slot, slab, payload)
    ensures var c := p.flows[slot].client.slot;
            var q := StoreDatagram(p, slot, slab, payload);
            ClientOk(q.clients[c]) &&
            DataQueue(q.clients[c]) == DataQueue(p.clients[c]) + [StoredEntry(p, slot, slab, payload)]
  {
    var c := p.clients[p.flows[slot].client.slot];
    var e := StoredEntry(p, slot, slab, payload);
    FilterAppend(c.queue, [e], IsData);
    forall kind, flow ensures Count(c.queue + [e], HasKey(kind, flow)) <= 1 {
      CountSnoc(c.queue, e, HasKey(kind, flow));
    }
  }

  lemma StoreOwners(p: Plane, slot: nat, slab: nat, payload: seq<Byte>)
    requires Sound(p) && CanStore(p, slot, slab, payload)
    ensures var q := StoreDatagram(p, slot, slab, payload); OwnersOk(q.clients, q.flows)
  {
    var q := StoreDatagram(p, slot, slab, payload);
    var f := p.flows[slot];
    StoreClient(p, slot, slab, payload);
    HandleSlot(slot, f);
    forall c: nat, e | c < MAXIMUM_CLIENT_CONTEXTS && e in DataQueue(q.clients[c]) ensures Owned(q.clients, q.flows, c, e) {
      if c != f.client.slot || e in DataQueue(p.clients[c]) {
        assert Owned(p.clients, p.flows, c, e);
      }
    }
  }

  lemma StoreOccupancies(p: Plane, slot: nat, slab: nat, payload: seq<Byte>)
    requires Sound(p) && CanStore(p, slot, slab, payload)
    ensures var q := StoreDatagram(p, slot, slab, payload); OccupanciesOk(q.clients, q.flows)
  {
    var q := StoreDatagram(p, slot, slab, payload);
    var f := p.flows[slot];
    StoreClient(p, slot, slab, payload);
    forall s | 0 <= s < MAXIMUM_FLOWS ensures OccupancyOk(q.clients, s, q.flows[s]) {
      var g := p.flows[s];
      assert OccupancyOk(p.clients, s, g);
      assert Handle(s, q.flows[s]) == Handle(s, g);
      if s != slot {
        HandlesDiffer(s, g, slot, f);
      }
      CountSnoc(DataQueue(p.clients[f.client.slot]), StoredEntry(p, slot, slab, payload), OfFlow(Handle(s, g)));
    }
  }

  lemma StoreSlabs(p: Plane, slot: nat, slab: nat, payload: seq<Byte>)
    requires Sound(p) && CanStore(p, slot, slab, payload)
    ensures var q := StoreDatagram(p, slot, slab, payload); SlabsOk(q.clients, q.slabs)
  {
    var q := StoreDatagram(p, slot, slab, payload);
    var c := p.flows[slot].client.slot;
    StoreClient(p, slot, slab, payload);
    forall s | 0 <= s < INBOUND_SLAB_COUNT ensures SlabOk(q.slabs[s]) && Named(q.clients, s) == Tally(q.slabs[s].inUse) {
      NamedUpdate(p.clients, c, q.clients[c], s);
      CountSnoc(DataQueue(p.clients[c]), StoredEntry(p, slot, slab, payload), HasSlab(s));
      assert SlabOk(p.slabs[s]) && Named(p.clients, s) == Tally(p.slabs[s].inUse);
    }
  }

  lemma StoreFlows(p: Plane, slot: nat, slab: nat, payload: seq<Byte>)
    requires Invariant(p) && CanStore(p, slot, slab, payload)
    ensures var q := StoreDatagram(p, slot, slab, payload);
            FlowsOk(q.clients, q.flows) && TombstonesOk(q.flows, q.tombstones) && TuplesOk(q.flows) &&
            PolicyOk(q.flows, q.policy, q.policyGeneration)
  {
    StoredParts(p, slot, slab, payload);
    StoredFlowsOk(p, slot, slab, payload);
    hide Invariant, StoreDatagram, FlowsOk, CanStore;
    var q := StoreDatagram(p, slot, slab, payload);
    SoundParts(p);
    SameTuplesOk(p.flows, q.flows);
    SameLiveOk(p.flows, q.flows, p.tombstones);
    SamePoliciesOk(p.flows, q.flows, p.policy, p.policyGeneration);
  }

  /** The flows differ in their occupancies only. */
  predicate OccupanciesMoved(f: Flows, g: Flows) {
    forall s :: 0 <= s < MAXIMUM_FLOWS ==> g[s] == f[s].(occupancy := g[s].occupancy)
  }

  lemma SoundParts(p: Plane)
    requires Invariant(p)
    ensures TombstonesOk(p.flows, p.tombstones) && TuplesOk(p.flows) && PolicyOk(p.flows, p.policy, p.policyGeneration)
    ensures FlowsOk(p.clients, p.flows)
  {
  }

  lemma StoredParts(p: Plane, slot: nat, slab: nat, payload: seq<Byte>)
    requires CanStore(p, slot, slab, payload)
    ensures var q := StoreDatagram(p, slot, slab, payload);
            OccupanciesMoved(p.flows, q.flows) && q.policy == p.policy && q.policyGeneration == p.policyGeneration &&
            q.tombstones == p.tombstones
  {
  }

  lemma StoredFlowsOk(p: Plane, slot: nat, slab: nat, payload: seq<Byte>)
    requires Invariant(p) && CanStore(p, slot, slab, payload)
    ensures var q := StoreDatagram(p, slot, slab, payload); FlowsOk(q.clients, q.flows)
  {
    var q := StoreDatagram(p, slot, slab, payload);
    SoundParts(p);
    assert FlowOk(p.clients, p.flows[slot]);
    hide Invariant;
    FlowsUpdate(p.clients, p.flows, slot, q.flows[slot]);
    SameClientsFlowsOk(p.clients, q.clients, q.flows);
  }

  lemma SameTuplesOk(f: Flows, g: Flows)
    requires TuplesOk(f) && OccupanciesMoved(f, g)
    ensures TuplesOk(g)
  {
  }

  lemma SameLiveOk(f: Flows, g: Flows, tombstones: Tombstones)
    requires TombstonesOk(f, tombstones) && OccupanciesMoved(f, g)
    ensures TombstonesOk(g, tombstones)
  {
    CountMonotone(g, f, IsLive);
  }

  lemma SamePoliciesOk(f: Flows, g: Flows, policy: Policy, generation: U32)
    requires PolicyOk(f, policy, generation) && OccupanciesMoved(f, g)
    ensures PolicyOk(g, policy, generation)
  {
    forall s | 0 <= s < MAXIMUM_FLOWS ensures Coherent(g[s], policy, generation) {
      assert Coherent(f[s], policy, generation);
    }
  }

  lemma StoreInvariant(p: Plane, slot: nat, slab: nat, payload: seq<Byte>)
    requires Invariant(p) && CanStore(p, slot, slab, payload)
    ensures Invariant(StoreDatagram(p, slot, slab, payload))
  {
    StoreClient(p, slot, slab, payload);
    StoreOwners(p, slot, slab, payload);
    StoreOccupancies(p, slot, slab, payload);
    StoreSlabs(p, slot, slab, payload);
    StoreFlows(p, slot, slab, payload);
  }

  /** A delivered datagram was stored; anything else leaves the plane as it was. */
  lemma DeliverOutcome(p: Plane, peer: PeerIdentity, policyGeneration: U32, token: nat, remote: Endpoint, payload: seq<Byte>)
    requires Invariant(p)
    ensures var (q, d) := Deliver(p, peer, policyGeneration, token, remote, payload);
            if d == Delivered
            then var slot := token % 16; var slab := FreeSlab(p.slabs, 0);
                 CanStore(p, slot, slab, payload) && Handle(slot, p.flows[slot]) == token &&
                 p.flows[slot].peer == peer == p.policy.peer && SameEndpoint(p.flows[slot].remote, remote) &&
                 q == StoreDatagram(p, slot, slab, payload)
            else q == p
  {
    FreeSlabBlank(p);
    hide Invariant, Handle, StoreDatagram, FreeSlab, Deliver, CanStore;
    if Deliver(p, peer, policyGeneration, token, remote, payload).1 == Delivered {
      DeliveredStored(p, peer, policyGeneration, token, remote, payload);
    } else {
      RefusedUnchanged(p, peer, policyGeneration, token, remote, payload);
    }
  }

  lemma DeliveredStored(
    p: Plane, peer: PeerIdentity, policyGeneration: U32, token: nat, remote: Endpoint, payload: seq<Byte>)
    requires Deliver(p, peer, policyGeneration, token, remote, payload).1 == Delivered
    ensures var slot := token % 16; var slab := FreeSlab(p.slabs, 0);
            CanStore(p, slot, slab, payload) && Handle(slot, p.flows[slot]) == token &&
            p.flows[slot].peer == peer == p.policy.peer && SameEndpoint(p.flows[slot].remote, remote) &&
            Deliver(p, peer, policyGeneration, token, remote, payload).0 == StoreDatagram(p, slot, slab, payload)
  {
    TokenSlot(p.flows, token);
    NotStale(p, p.flows[token % 16], peer, policyGeneration, remote);
    hide Handle, StoreDatagram, FreeSlab, IsClient, Stale, FindToken;
  }

  lemma RefusedUnchanged(
    p: Plane, peer: PeerIdentity, policyGeneration: U32, token: nat, remote: Endpoint, payload: seq<Byte>)
    requires Deliver(p, peer, policyGeneration, token, remote, payload).1 != Delivered
    requires var slab := FreeSlab(p.slabs, 0); slab < INBOUND_SLAB_COUNT ==> p.slabs[slab := FREE_SLAB] == p.slabs
    ensures Deliver(p, peer, policyGeneration, token, remote, payload).0 == p
  {
    hide Handle, StoreDatagram, FreeSlab, IsClient, Stale, FindToken;
  }

  lemma FreeSlabBlank(p: Plane)
    requires Invariant(p)
    ensures var slab := FreeSlab(p.slabs, 0); slab < INBOUND_SLAB_COUNT ==> p.slabs[slab := FREE_SLAB] == p.slabs
  {
    var slab := FreeSlab(p.slabs, 0);
    if slab < INBOUND_SLAB_COUNT {
      assert SlabOk(p.slabs[slab]);
    }
  }

  lemma NotStale(p: Plane, flow: Flow, peer: PeerIdentity, policyGeneration: U32, remote: Endpoint)
    requires !Stale(p, flow, peer, policyGeneration, remote)
    ensures !flow.closed && !flow.pending && IsClient(p.clients, flow.client) && flow.peer == peer == p.policy.peer
    ensures SameEndpoint(flow.remote, remote)
  {
    hide IsClient;
  }

  lemma TokenSlot(flows: Flows, token: nat)
    requires FindToken(flows, token).Some?
    ensures FindToken(flows, token).value == token % 16 && flows[token % 16].inUse && Handle(token % 16, flows[token % 16]) == token
  {
    hide Handle;
  }

  lemma DeliverInvariant(p: Plane, peer: PeerIdentity, policyGeneration: U32, token: nat, remote: Endpoint, payload: seq<Byte>)
    requires Invariant(p)
    ensures Invariant(Deliver(p, peer, policyGeneration, token, remote, payload).0)
  {
    DeliverOutcome(p, peer, policyGeneration, token, remote, payload);
    if Deliver(p, peer, policyGeneration, token, remote, payload).1 == Delivered {
      StoreInvariant(p, token % 16, FreeSlab(p.slabs, 0), payload);
    }
  }

  // ---------------------------------------------------------------------------------------------
  // Draining

  /** The front of a queue is the front of its datagrams, or no datagram. */
  lemma PopData(queue: seq<Entry>)
    requires queue != []
    ensures Filter(queue[1..], IsData) == if IsData(queue[0]) then Filter(queue, IsData)[1..] else Filter(queue, IsData)
    ensures IsData(queue[0]) ==> Filter(queue, IsData) != [] && Filter(queue, IsData)[0] == queue[0]
  {
  }

  lemma PopClient(p: Plane, id: ClientId)
    requires ClientsOk(p.clients) && IsClient(p.clients, id) && p.clients[id.slot].queue != []
    ensures ClientOk(PopFront(p, id).clients[id.slot])
  {
    var c := p.clients[id.slot];
    PopData(c.queue);
    assert forall e :: e in c.queue[1..] ==> e in c.queue;
    forall kind, flow ensures Count(c.queue[1..], HasKey(kind, flow)) <= 1 {
      assert Count(c.queue, HasKey(kind, flow)) <= 1;
    }
  }

  /** The owner of the datagram at the front of a queue. */
  lemma FrontOwner(p: Plane, id: ClientId)
    requires Sound(p) && IsClient(p.clients, id)
    requires p.clients[id.slot].queue != [] && IsData(p.clients[id.slot].queue[0])
    ensures var h := p.clients[id.slot].queue[0].record.flow;
            FindFlow(p, id, h) == Some(h % 16) && Handle(h % 16, p.flows[h % 16]) == h &&
            IsCommitted(p.flows[h % 16]) && p.flows[h % 16].client == id && p.flows[h % 16].occupancy > 0 &&
            p.clients[id.slot].queue[0].slab < INBOUND_SLAB_COUNT
  {
    var c := p.clients[id.slot];
    var e := c.queue[0];
    PopData(c.queue);
    assert e in DataQueue(c) && e in c.queue && EntryOk(e);
    assert Owned(p.clients, p.flows, id.slot, e);
    var s := e.record.flow % 16;
    assert FlowOk(p.clients, p.flows[s]) && OccupancyOk(p.clients, s, p.flows[s]);
    HandleRoundTrip(s, p.flows[s]);
    CountHit(DataQueue(c), 0, OfFlow(e.record.flow));
  }

  lemma PopOwners(p: Plane, id: ClientId)
    requires Sound(p) && IsClient(p.clients, id) && p.clients[id.slot].queue != []
    ensures var q := PopFront(p, id); OwnersOk(q.clients, q.flows)
  {
    var q := PopFront(p, id);
    PopData(p.clients[id.slot].queue);
    forall c: nat, e | c < MAXIMUM_CLIENT_CONTEXTS && e in DataQueue(q.clients[c]) ensures Owned(q.clients, q.flows, c, e) {
      assert e in DataQueue(p.clients[c]) && Owned(p.clients, p.flows, c, e);
    }
  }

  lemma PopOccupancies(p: Plane, id: ClientId)
    requires Sound(p) && IsClient(p.clients, id) && p.clients[id.slot].queue != []
    ensures var q := PopFront(p, id); OccupanciesOk(q.clients, q.flows)
  {
    var q := PopFront(p, id);
    var front := p.clients[id.slot].queue[0];
    PopData(p.clients[id.slot].queue);
    if IsData(front) {
      FrontOwner(p, id);
      var slot := front.record.flow % 16;
      forall s | 0 <= s < MAXIMUM_FLOWS ensures OccupancyOk(q.clients, s, q.flows[s]) {
        assert OccupancyOk(p.clients, s, p.flows[s]);
        assert Handle(s, q.flows[s]) == Handle(s, p.flows[s]);
        if s != slot {
          HandlesDiffer(s, p.flows[s], slot, p.flows[slot]);
        }
      }
    } else {
      forall s | 0 <= s < MAXIMUM_FLOWS ensures OccupancyOk(q.clients, s, q.flows[s]) {
        assert OccupancyOk(p.clients, s, p.flows[s]);
      }
    }
  }

  lemma PopSlabs(p: Plane, id: ClientId)
    requires Sound(p) && IsClient(p.clients, id) && p.clients[id.slot].queue != []
    ensures var q := PopFront(p, id); SlabsOk(q.clients, q.slabs)
  {
    var q := PopFront(p, id);
    var front := p.clients[id.slot].queue[0];
    PopData(p.clients[id.slot].queue);
    if IsData(front) {
      FrontOwner(p, id);
    }
    forall s | 0 <= s < INBOUND_SLAB_COUNT ensures SlabOk(q.slabs[s]) && Named(q.clients, s) == Tally(q.slabs[s].inUse) {
      NamedUpdate(p.clients, id.slot, q.clients[id.slot], s);
      assert SlabOk(p.slabs[s]) && Named(p.clients, s) == Tally(p.slabs[s].inUse);
    }
  }

  lemma PopFlows(p: Plane, id: ClientId)
    requires Invariant(p) && IsClient(p.clients, id) && p.clients[id.slot].queue != []
    ensures var q := PopFront(p, id);
            FlowsOk(q.clients, q.flows) && TombstonesOk(q.flows, q.tombstones) && TuplesOk(q.flows) &&
            PolicyOk(q.flows, q.policy, q.policyGeneration) && SameClients(p.clients, q.clients)
  {
    var q := PopFront(p, id);
    var front := p.clients[id.slot].queue[0];
    if IsData(front) {
      FrontOwner(p, id);
      var slot := front.record.flow % 16;
      assert FlowOk(p.clients, p.flows[slot]);
      FlowsUpdate(p.clients, p.flows, slot, q.flows[slot]);
      CountUpdate(p.flows, slot, q.flows[slot], IsLive);
    }
    SameClientsFlowsOk(p.clients, q.clients, q.flows);
    forall s | 0 <= s < MAXIMUM_FLOWS ensures Coherent(q.flows[s], p.policy, p.policyGeneration) {
      assert Coherent(p.flows[s], p.policy, p.policyGeneration);
    }
  }

  lemma PopInvariant(p: Plane, id: ClientId)
    requires Invariant(p) && IsClient(p.clients, id) && p.clients[id.slot].queue != []
    ensures Invariant(PopFront(p, id)) && IsClient(PopFront(p, id).clients, id)
  {
    PopClient(p, id);
    PopOwners(p, id);
    PopOccupancies(p, id);
    PopSlabs(p, id);
    PopFlows(p, id);
  }

  lemma {:induction false} DrainInvariant(p: Plane, id: ClientId, records: nat, capacity: nat, out: Drained)
    requires Invariant(p) && IsClient(p.clients, id)
    ensures Invariant(Drain(p, id, records, capacity, out).0) && IsClient(Drain(p, id, records, capacity, out).0.clients, id)
    decreases |p.clients[id.slot].queue|
  {
    var queue := p.clients[id.slot].queue;
    if |out.records| < records && queue != [] && capacity - |out.payload| >= |PayloadOf(p.slabs, queue[0])| {
      PopInvariant(p, id);
      DrainInvariant(PopFront(p, id), id, records, capacity, WithEntry(p.slabs, queue[0], out));
    }
  }

  lemma ServeReceiveInvariant(p: Plane, id: ClientId, records: nat, capacity: nat)
    requires Invariant(p)
    ensures Invariant(ServeReceive(p, id, records, capacity).0)
  {
    if IsClient(p.clients, id) {
      DrainInvariant(p, id, records, capacity, Drained([], []));
    }
    var after := Receive(p, id, records, capacity).0;
    if IsClient(after.clients, id) && after.clients[id.slot].queue == [] {
      var clients := after.clients[id.slot := after.clients[id.slot].(event := false)];
      assert ClientOk(after.clients[id.slot]);
      ReplaceClientsInvariant(after, clients);
    }
  }

  // ---------------------------------------------------------------------------------------------
  // The initial plane

  lemma InitialInvariant()
    ensures Invariant(InitialPlane())
  {
    var p := InitialPlane();
    assert AllFree(p) && CountersOk(p);
    hide InitialPlane, AllFree, ClientsOk, FlowsOk, OwnersOk, OccupanciesOk, SlabsOk, TombstonesOk, TuplesOk, PolicyOk;
    FreeTombstones(p);
    FreeClients(p);
    FreeFlows(p);
    FreeSlabs(p);
  }

  ghost predicate AllFree(p: Plane) {
    (forall c :: 0 <= c < MAXIMUM_CLIENT_CONTEXTS ==> p.clients[c] == FREE_CLIENT) &&
    (forall s :: 0 <= s < MAXIMUM_FLOWS ==> p.flows[s] == FREE_FLOW) &&
    (forall s :: 0 <= s < INBOUND_SLAB_COUNT ==> p.slabs[s] == FREE_SLAB)
  }

  lemma FreeClients(p: Plane)
    requires AllFree(p)
    ensures ClientsOk(p.clients) && OwnersOk(p.clients, p.flows)
  {
    assert DataQueue(FREE_CLIENT) == [];
    assert ClientOk(FREE_CLIENT);
    hide ClientOk;
  }

  lemma FreeFlows(p: Plane)
    requires AllFree(p)
    ensures FlowsOk(p.clients, p.flows) && OccupanciesOk(p.clients, p.flows) && TuplesOk(p.flows)
    ensures PolicyOk(p.flows, p.policy, p.policyGeneration)
  {
    hide Handle;
  }

  lemma FreeSlabs(p: Plane)
    requires AllFree(p)
    ensures SlabsOk(p.clients, p.slabs)
  {
    forall s | 0 <= s < INBOUND_SLAB_COUNT ensures SlabOk(p.slabs[s]) && Named(p.clients, s) == Tally(p.slabs[s].inUse) {
      UnnamedInitially(p.clients, s);
      hide Named;
    }
  }

  lemma FreeTombstones(p: Plane)
    requires AllFree(p)
    ensures TombstonesOk(p.flows, p.tombstones)
  {
    CountZero(p.flows, IsLive);
  }

  lemma UnnamedInitially(clients: Clients, slab: nat)
    requires forall c :: 0 <= c < MAXIMUM_CLIENT_CONTEXTS ==> clients[c] == FREE_CLIENT
    ensures Named(clients, slab) == 0
  {
    assert DataQueue(FREE_CLIENT) == [];
  }
}
