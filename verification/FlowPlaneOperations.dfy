/** Every operation of the flow plane keeps its invariant. */
module FlowPlaneOperations {
  import opened Counting
  import opened TunnelProtocol
  import opened Routing
  import opened FlowPlane
  import opened FlowPlaneInvariant
  import opened FlowPlaneQueues
  import opened FlowPlaneClosing

  // ---------------------------------------------------------------------------------------------
  // Closing

  /** What a close leaves alone. */
  ghost predicate CloseFrame(p: Plane, q: Plane, slot: nat)
    requires slot < MAXIMUM_FLOWS
  {
    (forall s :: 0 <= s < MAXIMUM_FLOWS && s != slot ==> q.flows[s] == p.flows[s]) &&
    (q.flows[slot] == p.flows[slot] || !IsLive(q.flows[slot])) &&
    SameClients(p.clients, q.clients) &&
    q.policy == p.policy && q.policyGeneration == p.policyGeneration
  }

  ghost predicate SameClients(a: Clients, b: Clients) {
    forall c :: 0 <= c < MAXIMUM_CLIENT_CONTEXTS ==> a[c].inUse == b[c].inUse && a[c].generation == b[c].generation
  }

  lemma CloseSlotFrame(p: Plane, slot: nat, reason: TerminalReason, now: int, notify: bool)
    requires slot < MAXIMUM_FLOWS
    ensures CloseFrame(p, CloseSlot(p, slot, reason, now, notify), slot)
    ensures !IsLive(CloseSlot(p, slot, reason, now, notify).flows[slot])
  {
  }

  lemma CloseSlotInvariant(p: Plane, slot: nat, reason: TerminalReason, now: int, notify: bool)
    requires Invariant(p) && slot < MAXIMUM_FLOWS
    ensures Invariant(CloseSlot(p, slot, reason, now, notify))
  {
    CloseSlotSound(p, slot, reason, now, notify);
    CloseSlotFrame(p, slot, reason, now, notify);
  }

  lemma CloseFlowInvariant(p: Plane, id: ClientId, handle: nat, now: int)
    requires Invariant(p)
    ensures Invariant(CloseFlow(p, id, handle, now).0)
  {
    var slot := FindFlow(p, id, handle);
    if slot.Some? {
      CloseSlotInvariant(p, slot.value, ClientClosed, now, true);
    }
  }

  lemma {:induction false} InvalidateInvariant(p: Plane, slot: nat, peer: PeerIdentity, reason: TerminalReason, now: int)
    requires Invariant(p) && slot <= MAXIMUM_FLOWS
    ensures Invariant(InvalidateFrom(p, slot, peer, reason, now))
    decreases MAXIMUM_FLOWS - slot
  {
    if slot < MAXIMUM_FLOWS {
      var next := if IsCommitted(p.flows[slot]) && p.flows[slot].peer == peer
                  then CloseSlot(p, slot, reason, now, true) else p;
      if IsCommitted(p.flows[slot]) && p.flows[slot].peer == peer {
        CloseSlotInvariant(p, slot, reason, now, true);
      }
      InvalidateInvariant(next, slot + 1, peer, reason, now);
    }
  }

  // ---------------------------------------------------------------------------------------------
  // Clients

  lemma {:induction false} CreateClientInvariant(p: Plane, slot: nat)
    requires Invariant(p) && slot <= MAXIMUM_CLIENT_CONTEXTS
    ensures Invariant(CreateClientAt(p, slot).0)
    decreases MAXIMUM_CLIENT_CONTEXTS - slot
  {
    if slot < MAXIMUM_CLIENT_CONTEXTS {
      if p.clients[slot].inUse {
        CreateClientInvariant(p, slot + 1);
      } else {
        AddClientInvariant(p, slot);
      }
    }
  }

  lemma AddClientInvariant(p: Plane, slot: nat)
    requires Invariant(p) && slot < MAXIMUM_CLIENT_CONTEXTS && !p.clients[slot].inUse
    ensures Invariant(CreateClientAt(p, slot).0)
  {
    var q := CreateClientAt(p, slot).0;
    assert ClientOk(p.clients[slot]);
    assert DataQueue(q.clients[slot]) == [] == DataQueue(p.clients[slot]);
    assert ClientOk(q.clients[slot]);
    assert ClientsOk(q.clients);
    forall s | 0 <= s < MAXIMUM_FLOWS ensures FlowOk(q.clients, q.flows[s]) && OccupancyOk(q.clients, s, q.flows[s]) {
      assert FlowOk(p.clients, p.flows[s]) && OccupancyOk(p.clients, s, p.flows[s]);
    }
    forall c: nat, e | c < MAXIMUM_CLIENT_CONTEXTS && e in DataQueue(q.clients[c]) ensures Owned(q.clients, q.flows, c, e) {
      assert Owned(p.clients, p.flows, c, e);
    }
    forall s | 0 <= s < INBOUND_SLAB_COUNT ensures Named(q.clients, s) == Tally(q.slabs[s].inUse) {
      NamedUpdate(p.clients, slot, q.clients[slot], s);
    }
  }

  /** Closing a client's flows leaves none of them live and every other flow as it was. */
  lemma {:induction false} CloseOwnedInvariant(p: Plane, slot: nat, id: ClientId, now: int)
    requires Invariant(p) && slot <= MAXIMUM_FLOWS
    requires forall s :: 0 <= s < slot ==> !OwnedBy(id)(p.flows[s])
    ensures var q := CloseOwnedFrom(p, slot, id, now);
            Invariant(q) && SameClients(p.clients, q.clients) &&
            forall s :: 0 <= s < MAXIMUM_FLOWS ==> !OwnedBy(id)(q.flows[s])
    decreases MAXIMUM_FLOWS - slot
  {
    hide CloseSlot, Invariant;
    if slot < MAXIMUM_FLOWS {
      if p.flows[slot].inUse && p.flows[slot].client == id {
        CloseSlotInvariant(p, slot, ClientClosed, now, false);
        CloseSlotFrame(p, slot, ClientClosed, now, false);
        CloseOwnedInvariant(CloseSlot(p, slot, ClientClosed, now, false), slot + 1, id, now);
      } else {
        CloseOwnedInvariant(p, slot + 1, id, now);
      }
    }
  }

  lemma {:induction false} ReleaseControlsOnly(slabs: Slabs, queue: seq<Entry>, f: Entry -> bool)
    requires Filter(queue, IsData) == []
    ensures ReleaseEntries(slabs, queue, f) == slabs
  {
    if queue != [] {
      ReleaseControlsOnly(slabs, queue[1..], f);
    }
  }

  lemma DatagramHasOwner(p: Plane, id: ClientId)
    requires Sound(p) && IsClient(p.clients, id)
    ensures DataQueue(p.clients[id.slot]) != [] ==> exists s :: 0 <= s < MAXIMUM_FLOWS && OwnedBy(id)(p.flows[s])
  {
    var data := DataQueue(p.clients[id.slot]);
    if data != [] {
      assert data[0] in data && Owned(p.clients, p.flows, id.slot, data[0]);
      assert OwnedBy(id)(p.flows[data[0].record.flow % 16]);
    }
  }

  /** With its flows closed, a client's queue holds no datagrams, so dropping it strands no slab. */
  lemma DropClientInvariant(p: Plane, id: ClientId)
    requires Invariant(p) && IsClient(p.clients, id)
    requires forall s :: 0 <= s < MAXIMUM_FLOWS ==> !OwnedBy(id)(p.flows[s])
    ensures DataQueue(p.clients[id.slot]) == []
    ensures Invariant(p.(clients := p.clients[id.slot := FREE_CLIENT]))
  {
    DatagramHasOwner(p, id);
    var q := p.(clients := p.clients[id.slot := FREE_CLIENT]);
    assert DataQueue(FREE_CLIENT) == [];
    assert ClientOk(FREE_CLIENT);
    assert ClientsOk(q.clients);
    forall s | 0 <= s < MAXIMUM_FLOWS ensures FlowOk(q.clients, q.flows[s]) && OccupancyOk(q.clients, s, q.flows[s]) {
      assert FlowOk(p.clients, p.flows[s]) && OccupancyOk(p.clients, s, p.flows[s]) && !OwnedBy(id)(p.flows[s]);
    }
    forall c: nat, e | c < MAXIMUM_CLIENT_CONTEXTS && e in DataQueue(q.clients[c]) ensures Owned(q.clients, q.flows, c, e) {
      assert Owned(p.clients, p.flows, c, e);
    }
    forall s | 0 <= s < INBOUND_SLAB_COUNT ensures Named(q.clients, s) == Tally(q.slabs[s].inUse) {
      NamedUpdate(p.clients, id.slot, FREE_CLIENT, s);
    }
  }

  lemma DestroyClientInvariant(p: Plane, id: ClientId, now: int)
    requires Invariant(p)
    ensures Invariant(DestroyClient(p, id, now))
  {
    if IsClient(p.clients, id) {
      CloseOwnedInvariant(p, 0, id, now);
      var closed := CloseOwnedFrom(p, 0, id, now);
      DropClientInvariant(closed, id);
      ReleaseControlsOnly(closed.slabs, closed.clients[id.slot].queue, Anything());
    }
  }

  // ---------------------------------------------------------------------------------------------
  // Reserving and committing

  /** Replacing a free or closed slot by a new pending flow. */
  lemma AddPendingSound(p: Plane, slot: nat, f: Flow)
    requires Sound(p) && slot < MAXIMUM_FLOWS && !IsLive(p.flows[slot])
    requires f.inUse && f.pending && FlowOk(p.clients, f)
    requires Count(p.tombstones, IsFreeTombstone) > Count(p.flows, IsLive)
    requires forall s :: 0 <= s < MAXIMUM_FLOWS && IsLive(p.flows[s]) ==> !SameTuple(p.flows[s], f)
    ensures Sound(p.(flows := p.flows[slot := f]))
  {
    var flows := p.flows[slot := f];
    FlowsUpdate(p.clients, p.flows, slot, f);
    CountUpdate(p.flows, slot, f, IsLive);
    forall c: nat, e | c < MAXIMUM_CLIENT_CONTEXTS && e in DataQueue(p.clients[c]) ensures Owned(p.clients, flows, c, e) {
      assert Owned(p.clients, p.flows, c, e);
    }
    forall s | 0 <= s < MAXIMUM_FLOWS ensures OccupancyOk(p.clients, s, flows[s]) {
      assert OccupancyOk(p.clients, s, p.flows[s]);
    }
  }

  /** The allocated port is in range and its tuple is free. */
  lemma {:induction false} AllocatedPort(p: Plane, remote: Endpoint, now: int, tries: nat)
    requires p.nextPort >= FIRST_PORT
    ensures var (port, next) := AllocatePort(p, remote, now, tries);
            next >= FIRST_PORT && (port.Some? ==> port.value >= FIRST_PORT && TupleFree(p, port.value, remote, now))
    decreases tries
  {
    if tries > 0 && !TupleFree(p, p.nextPort, remote, now) {
      var q := p.(nextPort := NextPort(p.nextPort));
      AllocatedPort(q, remote, now, tries - 1);
      assert forall port: U16 :: TupleFree(q, port, remote, now) == TupleFree(p, port, remote, now);
    }
  }

  lemma ClearedSound(p: Plane, now: int)
    requires Invariant(p)
    ensures Invariant(p.(tombstones := ClearExpired(p.tombstones, now)))
  {
    ExpireFrees(p.tombstones, now);
  }

  lemma NextFlowGenerationOk(next: U32)
    requires next % 0x100_0000 != 0
    ensures NextFlowGeneration(next) % 0x100_0000 != 0
  {
  }

  /** A granted reservation: the cleared plane, the chosen slot and port, and the new flow. */
  lemma ReserveGranted(p: Plane, id: ClientId, request: OpenRequest, now: int, availability: Availability)
    returns (slot: nat, port: U16)
    requires Invariant(p) && Reserve(p, id, request, now, availability).1.status == Success
    ensures slot < MAXIMUM_FLOWS && !IsLive(p.flows[slot]) && port >= FIRST_PORT
    ensures IsClient(p.clients, id) && p.policy.available && Covered(p.policy, request.remote.address)
    ensures p.policy.peer.activation != 0
    ensures var cleared := p.(tombstones := ClearExpired(p.tombstones, now));
            HasTombstoneReservation(cleared.tombstones, p.flows) && TupleFree(cleared, port, request.remote, now) &&
            var (q, r) := Reserve(p, id, request, now, availability);
            q == cleared.(flows := p.flows[slot := NewFlow(p, id, request, port)], nextPort := q.nextPort,
                          nextFlowGeneration := NextFlowGeneration(p.nextFlowGeneration)) &&
            q.nextPort >= FIRST_PORT && r == Reserved(slot, NewFlow(p, id, request, port))
  {
    var cleared := p.(tombstones := ClearExpired(p.tombstones, now));
    slot := ReusableFlow(p.flows, 0);
    var (allocation, next) := AllocatePort(cleared, request.remote, now, PORT_TRIES);
    AllocatedPort(cleared, request.remote, now, PORT_TRIES);
    port := allocation.value;
  }

  /** A failed reservation leaves everything but expired tombstones and the port counter. */
  lemma ReserveRefused(p: Plane, id: ClientId, request: OpenRequest, now: int, availability: Availability)
    requires Invariant(p) && Reserve(p, id, request, now, availability).1.status != Success
    ensures var q := Reserve(p, id, request, now, availability).0;
            Invariant(q) && q.(tombstones := p.tombstones, nextPort := p.nextPort) == p &&
            q.tombstones in {p.tombstones, ClearExpired(p.tombstones, now)}
  {
    var cleared := p.(tombstones := ClearExpired(p.tombstones, now));
    var next := AllocatePort(cleared, request.remote, now, PORT_TRIES).1;
    ClearedSound(p, now);
    assert p.nextPort >= FIRST_PORT;
    hide *;
    AllocatedPort(cleared, request.remote, now, PORT_TRIES);
    PortMoved(cleared, next);
    RefusedShape(p, id, request, now, availability);
  }

  /** A refusal leaves the plane, its cleared tombstones, or those and the port search. */
  lemma RefusedShape(p: Plane, id: ClientId, request: OpenRequest, now: int, availability: Availability)
    requires Reserve(p, id, request, now, availability).1.status != Success
    ensures var q := Reserve(p, id, request, now, availability).0;
            var cleared := p.(tombstones := ClearExpired(p.tombstones, now));
            q == p || q == cleared || q == cleared.(nextPort := AllocatePort(cleared, request.remote, now, PORT_TRIES).1)
  {
    hide Count, AllocatePort, Covered, ClearExpired, HasTombstoneReservation, ReserveAt, IsClient, ReusableFlow;
    var slot := ReusableFlow(p.flows, 0);
    if slot < MAXIMUM_FLOWS {
      ReserveAtRefused(p, id, request, now, slot);
    }
  }

  lemma ReserveAtRefused(p: Plane, id: ClientId, request: OpenRequest, now: int, slot: nat)
    requires slot < MAXIMUM_FLOWS
    ensures var (q, r) := ReserveAt(p, id, request, now, slot);
            var cleared := p.(tombstones := ClearExpired(p.tombstones, now));
            r.status == Success || q == cleared ||
            q == cleared.(nextPort := AllocatePort(cleared, request.remote, now, PORT_TRIES).1)
  {
    hide AllocatePort, ClearExpired, HasTombstoneReservation;
  }

  lemma PortMoved(p: Plane, port: U16)
    requires Invariant(p)
    ensures port >= FIRST_PORT ==> Invariant(p.(nextPort := port))
  {
  }

  lemma ReserveInvariant(p: Plane, id: ClientId, request: OpenRequest, now: int, availability: Availability)
    requires Invariant(p)
    ensures Invariant(Reserve(p, id, request, now, availability).0)
  {
    var (q, r) := Reserve(p, id, request, now, availability);
    if r.status == Success {
      var slot, port := ReserveGranted(p, id, request, now, availability);
      var cleared := p.(tombstones := ClearExpired(p.tombstones, now));
      ClearedSound(p, now);
      var f := NewFlow(p, id, request, port);
      NewFlowDistinct(cleared, id, request, port, now);
      AddPendingSound(cleared, slot, f);
      NextFlowGenerationOk(p.nextFlowGeneration);
      var added := cleared.(flows := p.flows[slot := f]);
      assert Sound(added);
      assert PolicyOk(q.flows, q.policy, q.policyGeneration) by {
        assert Coherent(f, p.policy, p.policyGeneration);
      }
    } else {
      ReserveRefused(p, id, request, now, availability);
    }
  }

  lemma NewFlowDistinct(p: Plane, id: ClientId, request: OpenRequest, port: U16, now: int)
    requires TupleFree(p, port, request.remote, now)
    ensures forall s :: 0 <= s < MAXIMUM_FLOWS && IsLive(p.flows[s]) ==> !SameTuple(p.flows[s], NewFlow(p, id, request, port))
  {
    forall s | 0 <= s < MAXIMUM_FLOWS && IsLive(p.flows[s]) ensures !SameTuple(p.flows[s], NewFlow(p, id, request, port)) {
      assert !UsesTuple(p.flows[s], p.policy.source, port, request.remote);
    }
  }

  lemma CommitInvariant(p: Plane, r: Reservation)
    requires Invariant(p)
    ensures Invariant(Commit(p, r).0)
  {
    if CanCommit(p, r) {
      var slot := FindFlow(p, r.client, r.flow).value;
      CommitSlotInvariant(p, slot);
    }
  }

  /** A pending flow has no queued datagram, so committing it with occupancy zero is exact. */
  lemma CommitSlotInvariant(p: Plane, slot: nat)
    requires Invariant(p) && slot < MAXIMUM_FLOWS && IsLive(p.flows[slot]) && p.flows[slot].pending
    ensures Invariant(p.(flows := p.flows[slot := p.flows[slot].(pending := false)]))
  {
    var f := p.flows[slot].(pending := false);
    var flows := p.flows[slot := f];
    assert FlowOk(p.clients, p.flows[slot]);
    FlowsUpdate(p.clients, p.flows, slot, f);
    CountUpdate(p.flows, slot, f, IsLive);
    CommittedOwners(p, slot);
    CommittedOccupancies(p, slot);
    hide DataQueue, Handle, OccupanciesOk, OwnersOk, Count;
    forall s | 0 <= s < MAXIMUM_FLOWS ensures Coherent(flows[s], p.policy, p.policyGeneration) {
      assert Coherent(p.flows[s], p.policy, p.policyGeneration);
    }
  }

  lemma CommittedOwners(p: Plane, slot: nat)
    requires OwnersOk(p.clients, p.flows) && slot < MAXIMUM_FLOWS && p.flows[slot].pending
    ensures OwnersOk(p.clients, p.flows[slot := p.flows[slot].(pending := false)])
  {
    var flows := p.flows[slot := p.flows[slot].(pending := false)];
    forall c: nat, e | c < MAXIMUM_CLIENT_CONTEXTS && e in DataQueue(p.clients[c]) ensures Owned(p.clients, flows, c, e) {
      assert Owned(p.clients, p.flows, c, e);
    }
  }

  lemma CommittedOccupancies(p: Plane, slot: nat)
    requires Invariant(p) && slot < MAXIMUM_FLOWS && IsLive(p.flows[slot]) && p.flows[slot].pending
    ensures OccupanciesOk(p.clients, p.flows[slot := p.flows[slot].(pending := false)])
  {
    var f := p.flows[slot].(pending := false);
    var flows := p.flows[slot := f];
    NothingPending(p, slot);
    forall s | 0 <= s < MAXIMUM_FLOWS ensures OccupancyOk(p.clients, s, flows[s]) {
      assert OccupancyOk(p.clients, s, p.flows[s]);
    }
  }

  /** A reservation has no datagram queued for it. */
  lemma NothingPending(p: Plane, slot: nat)
    requires Invariant(p) && slot < MAXIMUM_FLOWS && IsLive(p.flows[slot]) && p.flows[slot].pending
    ensures var f := p.flows[slot].(pending := false); OccupancyOk(p.clients, slot, f)
  {
    var f := p.flows[slot].(pending := false);
    HandleSlot(slot, f);
    assert FlowOk(p.clients, p.flows[slot]);
    var data := DataQueue(p.clients[f.client.slot]);
    forall i | 0 <= i < |data| ensures !OfFlow(Handle(slot, f))(data[i]) {
      assert data[i] in data && Owned(p.clients, p.flows, f.client.slot, data[i]);
    }
    CountZero(data, OfFlow(Handle(slot, f)));
  }

  lemma CancelInvariant(p: Plane, r: Reservation)
    requires Invariant(p)
    ensures Invariant(Cancel(p, r))
  {
    var slot := FindFlow(p, r.client, r.flow);
    if r.IsReserved() && slot.Some? && p.flows[slot.value].pending {
      assert FlowOk(p.clients, p.flows[slot.value]);
      DropPendingSound(p, slot.value);
    }
  }

  lemma OpenFlowInvariant(p: Plane, id: ClientId, request: OpenRequest, now: int, availability: Availability)
    requires Invariant(p)
    ensures Invariant(OpenFlow(p, id, request, now, availability).0)
  {
    var (reserved, r) := Reserve(p, id, request, now, availability);
    ReserveInvariant(p, id, request, now, availability);
    CommitInvariant(reserved, r);
    CancelInvariant(reserved, r);
  }

  // ---------------------------------------------------------------------------------------------
  // Policy

  ghost predicate PolicyOkBelow(flows: Flows, policy: Policy, generation: U32, bound: nat) {
    forall s :: 0 <= s < MAXIMUM_FLOWS && s < bound ==> Coherent(flows[s], policy, generation)
  }

  /** Re-stamping a covered flow. */
  lemma RestampSound(p: Plane, slot: nat, generation: U32)
    requires Sound(p) && slot < MAXIMUM_FLOWS && p.flows[slot].inUse
    ensures Sound(p.(flows := p.flows[slot := p.flows[slot].(policyGeneration := generation)]))
  {
    TouchFlowSound(p, slot, p.flows[slot].(policyGeneration := generation));
  }

  /** Fields of a flow that the table invariants never look at. */
  predicate Touched(f: Flow, g: Flow) {
    g.inUse == f.inUse && g.closed == f.closed && g.pending == f.pending && g.client == f.client &&
    g.generation == f.generation && g.remote == f.remote && g.source == f.source && g.port == f.port &&
    g.occupancy == f.occupancy
  }

  lemma TouchFlowSound(p: Plane, slot: nat, g: Flow)
    requires Sound(p) && slot < MAXIMUM_FLOWS && Touched(p.flows[slot], g) && (!g.inUse ==> g == FREE_FLOW)
    ensures Sound(p.(flows := p.flows[slot := g]))
  {
    var f := p.flows[slot];
    var flows := p.flows[slot := g];
    assert FlowOk(p.clients, f);
    FlowsUpdate(p.clients, p.flows, slot, g);
    CountUpdate(p.flows, slot, g, IsLive);
    TouchedOwners(p, slot, g);
    TouchedOccupancies(p, slot, g);
    hide OwnersOk, OccupanciesOk, Handle, Count, DataQueue;
  }

  lemma TouchedOwners(p: Plane, slot: nat, g: Flow)
    requires OwnersOk(p.clients, p.flows) && slot < MAXIMUM_FLOWS && Touched(p.flows[slot], g)
    ensures OwnersOk(p.clients, p.flows[slot := g])
  {
    var flows := p.flows[slot := g];
    forall c: nat, e | c < MAXIMUM_CLIENT_CONTEXTS && e in DataQueue(p.clients[c]) ensures Owned(p.clients, flows, c, e) {
      assert Owned(p.clients, p.flows, c, e);
    }
  }

  lemma TouchedOccupancies(p: Plane, slot: nat, g: Flow)
    requires OccupanciesOk(p.clients, p.flows) && slot < MAXIMUM_FLOWS && Touched(p.flows[slot], g)
    ensures OccupanciesOk(p.clients, p.flows[slot := g])
  {
    var flows := p.flows[slot := g];
    assert Handle(slot, g) == Handle(slot, p.flows[slot]);
    hide Handle, Count, DataQueue;
    forall s | 0 <= s < MAXIMUM_FLOWS ensures OccupancyOk(p.clients, s, flows[s]) {
      assert OccupancyOk(p.clients, s, p.flows[s]);
    }
  }

  lemma ApplyPolicyAtSound(p: Plane, slot: nat, now: int)
    requires Sound(p) && slot < MAXIMUM_FLOWS
    ensures Sound(ApplyPolicyAt(p, slot, now))
  {
    if IsLive(p.flows[slot]) {
      CloseSlotSound(p, slot, PolicyInvalidated, now, true);
      RestampSound(p, slot, p.policyGeneration);
    }
  }

  /** One flow settles, the flows before and after it stay as they were. */
  lemma ApplyPolicyAtFrame(p: Plane, slot: nat, now: int)
    requires slot < MAXIMUM_FLOWS
    ensures var q := ApplyPolicyAt(p, slot, now);
            Coherent(q.flows[slot], p.policy, p.policyGeneration) &&
            q.policy == p.policy && q.policyGeneration == p.policyGeneration &&
            forall s :: 0 <= s < MAXIMUM_FLOWS && s != slot ==> q.flows[s] == p.flows[s]
  {
    CloseSlotFrame(p, slot, PolicyInvalidated, now, true);
  }

  lemma {:induction false} ApplyPolicyInvariant(p: Plane, slot: nat, now: int)
    requires Sound(p) && slot <= MAXIMUM_FLOWS && PolicyOkBelow(p.flows, p.policy, p.policyGeneration, slot)
    ensures var q := ApplyPolicyFrom(p, slot, now);
            Invariant(q) && q.policy == p.policy && q.policyGeneration == p.policyGeneration
    decreases MAXIMUM_FLOWS - slot
  {
    if slot < MAXIMUM_FLOWS {
      ApplyPolicyAtSound(p, slot, now);
      ApplyPolicyAtFrame(p, slot, now);
      ApplyPolicyInvariant(ApplyPolicyAt(p, slot, now), slot + 1, now);
    }
  }

  lemma {:induction false} AnnouncePolicyOk(clients: Clients, slot: nat, generation: U32)
    requires ClientsOk(clients) && slot <= MAXIMUM_CLIENT_CONTEXTS
    ensures ClientsOk(AnnouncePolicyFrom(clients, slot, generation))
    ensures SameOwners(clients, AnnouncePolicyFrom(clients, slot, generation))
    decreases MAXIMUM_CLIENT_CONTEXTS - slot
  {
    hide EnqueueControl, ClientsOk, DataQueue;
    if slot < MAXIMUM_CLIENT_CONTEXTS {
      if clients[slot].inUse {
        var id := ClientId(slot, clients[slot].generation);
        EnqueueControlOk(clients, id, PolicyRecord(generation));
        AnnouncePolicyOk(EnqueueControl(clients, id, PolicyRecord(generation)), slot + 1, generation);
      } else {
        AnnouncePolicyOk(clients, slot + 1, generation);
      }
    }
  }

  /** Clients may change their control entries freely. */
  lemma ReplaceClientsInvariant(p: Plane, clients: Clients)
    requires Invariant(p) && ClientsOk(clients) && SameOwners(p.clients, clients)
    ensures Invariant(p.(clients := clients))
  {
    SameOwnersOk(p.clients, clients, p.flows, p.slabs);
  }

  lemma RefreshPolicyInvariant(p: Plane, input: PolicyInput, now: int)
    requires Invariant(p)
    ensures Invariant(RefreshPolicy(p, input, now))
  {
    var policy := ResolvePolicy(input);
    if policy != p.policy {
      var renewed := p.(policy := policy, policyGeneration := p.nextPolicyGeneration,
                        nextPolicyGeneration := NextNonZero(p.nextPolicyGeneration));
      assert Sound(renewed);
      ApplyPolicyInvariant(renewed, 0, now);
      var applied := ApplyPolicyFrom(renewed, 0, now);
      AnnouncePolicyOk(applied.clients, 0, applied.policyGeneration);
      ReplaceClientsInvariant(applied, AnnouncePolicyFrom(applied.clients, 0, applied.policyGeneration));
    }
  }

  // ---------------------------------------------------------------------------------------------
  // Back-pressure

  lemma SetWaiterInvariant(p: Plane, slot: nat, waiting: bool)
    requires Invariant(p) && slot < MAXIMUM_FLOWS && p.flows[slot].inUse
    ensures Invariant(SetWaiter(p, slot, waiting))
  {
    TouchFlowSound(p, slot, p.flows[slot].(writableWaiter := waiting));
    var flows := SetWaiter(p, slot, waiting).flows;
    forall s | 0 <= s < MAXIMUM_FLOWS ensures Coherent(flows[s], p.policy, p.policyGeneration) {
      assert Coherent(p.flows[s], p.policy, p.policyGeneration);
    }
  }

  lemma PrepareSendInvariant(p: Plane, id: ClientId, handle: nat, declaredSize: nat, size: nat, availability: Availability)
    requires Invariant(p)
    ensures Invariant(PrepareSend(p, id, handle, declaredSize, size, availability).0)
  {
    var slot := FindFlow(p, id, handle);
    if slot.Some? {
      SetWaiterInvariant(p, slot.value, true);
    }
  }

  lemma CompleteSendInvariant(p: Plane, prepared: Prepared, status: ProtocolStatus)
    requires Invariant(p)
    ensures Invariant(CompleteSend(p, prepared, status))
  {
    var slot := FindToken(p.flows, prepared.flow);
    if slot.Some? {
      SetWaiterInvariant(p, slot.value, true);
      SetWaiterInvariant(p, slot.value, false);
    }
  }

  lemma {:induction false} NotifyCapacityInvariant(p: Plane, slot: nat, peer: PeerIdentity)
    requires Invariant(p) && slot <= MAXIMUM_FLOWS
    ensures Invariant(NotifyCapacityFrom(p, slot, peer))
    decreases MAXIMUM_FLOWS - slot
  {
    if slot < MAXIMUM_FLOWS {
      var f := p.flows[slot];
      if AwaitsCapacity(f, peer) {
        SetWaiterInvariant(p, slot, false);
        assert ClientsOk(p.clients);
        hide Invariant, ClientsOk, EnqueueControl, SameOwners;
        EnqueueControlOk(p.clients, f.client, WritableRecord(slot, f));
        var clients := EnqueueControl(p.clients, f.client, WritableRecord(slot, f));
        ReplaceClientsInvariant(SetWaiter(p, slot, false), clients);
        NotifyCapacityInvariant(SetWaiter(p, slot, false).(clients := clients), slot + 1, peer);
      } else {
        hide Invariant;
        NotifyCapacityInvariant(p, slot + 1, peer);
      }
    }
  }
}
