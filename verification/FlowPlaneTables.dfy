/**
 * The flow plane as it is stored: fixed tables updated in place.  Every method is proved to move the
 * value the tables stand for exactly as the operation of the same purpose in FlowPlane does, and the
 * public ones keep the plane's invariant.
 */
module FlowPlaneTables {
  import opened Counting
  import opened Division
  import opened TunnelProtocol
  import opened Routing
  import opened FlowPlane
  import opened FlowPlaneInvariant
  import opened FlowPlaneOperations
  import opened FlowPlaneDelivery
  import opened CompletionRing
  import opened PolicyParser

  /** A counter value and the counter after it, both skipping zero. */
  method AllocateNonZero(next: U32) returns (value: U32, following: U32)
    ensures value != 0 && following == NextNonZero(value)
    ensures next != 0 ==> value == next
  {
    value := next;
    following := if next == 0xFFFF_FFFF then 1 else next + 1;
    if value == 0 {
      value, following := following, following + 1;
    }
  }

  class TunnelFlowPlane {
    const clients: array<ClientSlot>
    const flows: array<Flow>
    const slabs: array<Slab>
    const tombstones: array<Tombstone>
    var policy: Policy
    var policyGeneration: U32
    var nextPolicyGeneration: U32
    var nextClientGeneration: U32
    var nextFlowGeneration: U32
    var nextPort: U16

    ghost predicate Shaped() {
      clients.Length == MAXIMUM_CLIENT_CONTEXTS && flows.Length == MAXIMUM_FLOWS &&
      slabs.Length == INBOUND_SLAB_COUNT && tombstones.Length == TOMBSTONE_CAPACITY
    }

    /** The plane these tables stand for. */
    ghost function Model(): Plane
      requires Shaped()
      reads this, clients, flows, slabs, tombstones
    {
      Plane(Views(clients[..]), flows[..], slabs[..], tombstones[..], policy, policyGeneration, nextPolicyGeneration,
            nextClientGeneration, nextFlowGeneration, nextPort)
    }

    ghost predicate Valid()
      reads this, clients, flows, slabs, tombstones
    {
      Shaped() && Invariant(Model())
    }

    constructor ()
      ensures Valid() && Model() == InitialPlane()
      ensures fresh(clients) && fresh(flows) && fresh(slabs) && fresh(tombstones)
    {
      clients := new ClientSlot[MAXIMUM_CLIENT_CONTEXTS](_ => FREE_SLOT);
      flows := new Flow[MAXIMUM_FLOWS](_ => FREE_FLOW);
      slabs := new Slab[INBOUND_SLAB_COUNT](_ => FREE_SLAB);
      tombstones := new Tombstone[TOMBSTONE_CAPACITY](_ => FREE_TOMBSTONE);
      policy := NO_POLICY;
      policyGeneration, nextPolicyGeneration, nextClientGeneration, nextFlowGeneration := 1, 2, 1, 1;
      nextPort := FIRST_PORT;
      new;
      assert View(FREE_SLOT) == FREE_CLIENT;
      assert Model().clients == InitialPlane().clients;
      assert Model() == InitialPlane();
      InitialInvariant();
    }

    // -------------------------------------------------------------------------------------------
    // Lookups

    predicate Holds(id: ClientId)
      requires Shaped()
      reads clients
      ensures Holds(id) == IsClient(Views(clients[..]), id)
    {
      id.slot < MAXIMUM_CLIENT_CONTEXTS && id.generation != 0 &&
      clients[id.slot].inUse && clients[id.slot].generation == id.generation
    }

    function FindFlowSlot(id: ClientId, handle: nat): (slot: Option<nat>)
      requires Shaped()
      reads this, clients, flows, slabs, tombstones
      ensures slot == FindFlow(Model(), id, handle)
      ensures slot.Some? ==> slot.value < MAXIMUM_FLOWS
    {
      var decoded := DecodeHandle(handle);
      if !Holds(id) || decoded.None? || decoded.value.client != id then None
      else
        var flow := flows[decoded.value.slot];
        if flow.inUse && flow.generation == decoded.value.generation && flow.client == id
        then Some(decoded.value.slot) else None
    }

    /** Scans the table for the flow with exactly this handle. */
    method FindTokenSlot(token: nat) returns (slot: Option<nat>)
      requires Shaped()
      ensures slot == FindToken(flows[..], token)
      ensures slot.Some? ==> slot.value < MAXIMUM_FLOWS
    {
      for index := 0 to MAXIMUM_FLOWS
        invariant forall j: nat :: j < index ==> !(flows[j].inUse && Handle(j, flows[j]) == token)
      {
        if flows[index].inUse && Handle(index, flows[index]) == token {
          HandleSlot(index, flows[index]);
          return Some(index);
        }
      }
      return None;
    }

    // -------------------------------------------------------------------------------------------
    // Completion queues and slabs

    method StoreClient(slot: nat, c: ClientSlot)
      requires Shaped() && slot < MAXIMUM_CLIENT_CONTEXTS
      modifies clients
      ensures clients[..] == old(clients[..])[slot := c]
      ensures Model() == old(Model()).(clients := old(Model()).clients[slot := View(c)])
    {
      clients[slot] := c;
      assert clients[..] == old(clients[..])[slot := c];
      assert Views(clients[..]) == Views(old(clients[..]))[slot := View(c)];
    }

    method StoreFlow(slot: nat, flow: Flow)
      requires Shaped() && slot < MAXIMUM_FLOWS
      modifies flows
      ensures Model() == old(Model()).(flows := old(Model()).flows[slot := flow])
    {
      flows[slot] := flow;
      assert flows[..] == old(flows[..])[slot := flow];
    }

    method StoreSlab(slot: nat, slab: Slab)
      requires Shaped() && slot < INBOUND_SLAB_COUNT
      modifies slabs
      ensures Model() == old(Model()).(slabs := old(Model()).slabs[slot := slab])
    {
      slabs[slot] := slab;
      assert slabs[..] == old(slabs[..])[slot := slab];
    }

    method ReleaseInboundSlab(slot: nat)
      requires Shaped()
      modifies slabs
      ensures Model() == old(Model()).(slabs := ReleaseSlab(old(Model()).slabs, slot))
    {
      if slot < INBOUND_SLAB_COUNT {
        StoreSlab(slot, FREE_SLAB);
      }
    }

    method AllocateInboundSlab() returns (slot: nat)
      requires Shaped()
      modifies slabs
      ensures var free := FreeSlab(old(slabs[..]), 0);
              if free == INBOUND_SLAB_COUNT then slot == NO_SLAB && Model() == old(Model())
              else slot == free && Model() == old(Model()).(slabs := old(Model()).slabs[free := old(slabs[free]).(inUse := true)])
    {
      for index := 0 to INBOUND_SLAB_COUNT
        invariant forall j :: 0 <= j < index ==> slabs[j].inUse
        invariant slabs[..] == old(slabs[..])
      {
        if !slabs[index].inUse {
          StoreSlab(index, slabs[index].(inUse := true));
          return index;
        }
      }
      return NO_SLAB;
    }

    method EnqueueControlCompletion(id: ClientId, record: CompletionRecord)
      requires Shaped()
      modifies clients
      ensures Model() == old(Model()).(clients := EnqueueControl(old(Model()).clients, id, record))
    {
      if !Holds(id) {
        return;
      }
      var c := clients[id.slot];
      for index := 0 to c.count
        invariant forall j :: 0 <= j < index ==> !SameKey(Queue(c)[j], record)
        invariant clients[..] == old(clients[..])
      {
        var entry := CompletionAt(c, index);
        if entry.slab == NO_SLAB && entry.record.kind == record.kind && entry.record.flow == record.flow {
          OverwrittenQueue(c, index, entry.(record := record));
          StoreClient(id.slot, Overwritten(c, index, entry.(record := record)));
          return;
        }
      }
      if c.count >= COMPLETION_QUEUE_CAPACITY {
        assert View(c) == ControlPushed(View(c), record);
        return;
      }
      AppendedQueue(c, Entry(record, NO_SLAB));
      StoreClient(id.slot, Appended(c, Entry(record, NO_SLAB)));
    }

    /** Appends a datagram completion, or gives the slab back when the queue cannot take it. */
    method EnqueueDataCompletion(slot: nat, slab: nat) returns (stored: bool)
      requires Shaped() && slot < MAXIMUM_FLOWS && slab < INBOUND_SLAB_COUNT && Holds(flows[slot].client)
      requires flows[slot].occupancy > 0
      modifies clients, flows, slabs
      ensures (Model(), stored) == Enqueued(old(Model()), slot, slab)
    {
      var flow := flows[slot];
      var c := clients[flow.client.slot];
      if c.dataCount >= DATA_COMPLETION_CAPACITY || c.count >= COMPLETION_QUEUE_CAPACITY {
        ReleaseInboundSlab(slab);
        StoreFlow(slot, flow.(occupancy := flow.occupancy - 1));
        return false;
      }
      var entry := Entry(DataRecord(slot, flow, |slabs[slab].bytes|), slab);
      AppendedQueue(c, entry);
      StoreClient(flow.client.slot, Appended(c, entry));
      return true;
    }

    method RemoveFlowCompletions(client: nat, handle: nat)
      requires Shaped() && client < MAXIMUM_CLIENT_CONTEXTS
      modifies clients, slabs
      ensures Model() == FlowPlane.RemoveFlowCompletions(old(Model()), client, handle)
    {
      var c := clients[client];
      var retained, retainedData := RetainOthers(c, handle);
      RestartedQueue(c, retained, retainedData);
      StoreClient(client, Restarted(c, retained, retainedData));
    }

    /** Collects the entries a flow's removal keeps and releases the slabs of the rest. */
    method RetainOthers(c: ClientSlot, handle: nat) returns (retained: seq<Entry>, retainedData: nat)
      requires Shaped()
      modifies slabs
      ensures |retained| <= COMPLETION_QUEUE_CAPACITY && retained == Filter(Queue(c), NotDataOf(handle))
      ensures retainedData == Count(retained, IsData)
      ensures slabs[..] == ReleaseEntries(old(slabs[..]), Queue(c), DataOf(handle))
    {
      hide Queue, CompletionAt;
      ghost var queue := Queue(c);
      retained, retainedData := [], 0;
      for index := 0 to c.count
        invariant |retained| <= index && retained == Filter(queue[..index], NotDataOf(handle))
        invariant retainedData == Count(retained, IsData)
        invariant ReleaseEntries(slabs[..], queue[index..], DataOf(handle)) == ReleaseEntries(old(slabs[..]), queue, DataOf(handle))
      {
        hide Filter, Count, ReleaseEntries, ReleaseSlab, Views;
        var entry := CompletionAt(c, index);
        RetainStep(queue, index, handle);
        ReleaseStep(slabs[..], queue, index, handle);
        if entry.record.flow == handle && entry.slab != NO_SLAB {
          ReleaseInboundSlab(entry.slab);
        } else {
          CountSnoc(retained, entry, IsData);
          retained := retained + [entry];
          retainedData := retainedData + (if entry.slab != NO_SLAB then 1 else 0);
        }
      }
      assert queue[..c.count] == queue && queue[c.count..] == [];
    }

    /** Takes the front entry off a client's ring. */
    method RemoveCompletionFront(client: nat) returns (entry: Entry)
      requires Shaped() && client < MAXIMUM_CLIENT_CONTEXTS && clients[client].count > 0
      modifies clients
      ensures var c := old(Model()).clients[client];
              entry == c.queue[0] && clients[client] == FrontRemoved(old(clients[client])) &&
              Model() == old(Model()).(clients := old(Model()).clients[client :=
                c.(queue := c.queue[1..],
                   dataCount := if IsData(entry) && c.dataCount > 0 then c.dataCount - 1 else c.dataCount)])
    {
      var c := clients[client];
      entry := c.completions[c.head];
      FrontRemovedQueue(c);
      StoreClient(client, FrontRemoved(c));
    }

    // -------------------------------------------------------------------------------------------
    // Tombstones and closing

    method ClearExpiredTombstones(now: int)
      requires Shaped()
      modifies tombstones
      ensures Model() == old(Model()).(tombstones := ClearExpired(old(Model()).tombstones, now))
    {
      for index := 0 to TOMBSTONE_CAPACITY
        invariant forall j :: 0 <= j < index ==> tombstones[j] == Expire(old(tombstones[j]), now)
        invariant forall j :: index <= j < TOMBSTONE_CAPACITY ==> tombstones[j] == old(tombstones[j])
      {
        if tombstones[index].occupied && tombstones[index].expiresAt <= now {
          tombstones[index] := FREE_TOMBSTONE;
        }
      }
      assert tombstones[..] == ClearExpired(old(tombstones[..]), now);
    }

    method QuarantineTuple(flow: Flow, now: int)
      requires Shaped()
      modifies tombstones
      ensures Model() == old(Model()).(tombstones := Quarantine(old(Model()).tombstones, flow, now))
    {
      if flow.port == 0 {
        return;
      }
      ClearExpiredTombstones(now);
      var slot := FreeTombstone(tombstones[..], 0);
      if slot == TOMBSTONE_CAPACITY {
        return;
      }
      ghost var cleared := tombstones[..];
      tombstones[slot] := Tombstone(true, flow.source, flow.port, flow.remote, now + QUARANTINE_NS);
      assert tombstones[..] == cleared[slot := tombstones[slot]];
    }

    method CloseFlowSlot(slot: nat, reason: TerminalReason, now: int, notify: bool)
      requires Shaped() && slot < MAXIMUM_FLOWS
      modifies clients, flows, slabs, tombstones
      ensures Model() == CloseSlot(old(Model()), slot, reason, now, notify)
    {
      var flow := flows[slot];
      if !flow.inUse || flow.closed {
        return;
      }
      if flow.pending {
        StoreFlow(slot, FREE_FLOW);
        return;
      }
      if Holds(flow.client) {
        RemoveFlowCompletions(flow.client.slot, Handle(slot, flow));
      }
      QuarantineTuple(flow, now);
      StoreFlow(slot, flow.(closed := true, reason := reason, occupancy := 0));
      if notify {
        EnqueueControlCompletion(flow.client, ClosedRecord(slot, flow, reason));
      }
    }

    // -------------------------------------------------------------------------------------------
    // Clients

    method CreateClient() returns (id: ClientId)
      requires Valid()
      modifies this, clients
      ensures Valid() && (Model(), id) == FlowPlane.CreateClient(old(Model()))
    {
      CreateClientInvariant(Model(), 0);
      for index := 0 to MAXIMUM_CLIENT_CONTEXTS
        invariant Model() == old(Model())
        invariant CreateClientAt(Model(), index) == CreateClientAt(old(Model()), 0)
      {
        if !clients[index].inUse {
          var generation, following := AllocateNonZero(nextClientGeneration);
          nextClientGeneration := following;
          assert View(FREE_SLOT.(inUse := true, generation := generation))
              == FREE_CLIENT.(inUse := true, generation := generation);
          StoreClient(index, FREE_SLOT.(inUse := true, generation := generation));
          return ClientId(index, generation);
        }
      }
      return NO_CLIENT;
    }

    method DestroyClient(id: ClientId, now: int)
      requires Valid()
      modifies clients, flows, slabs, tombstones
      ensures Valid() && Model() == FlowPlane.DestroyClient(old(Model()), id, now)
    {
      DestroyClientInvariant(Model(), id, now);
      hide Invariant;
      if Holds(id) {
        CloseOwnedFlows(id, now);
        EmptyClient(id.slot);
      }
    }

    method CloseOwnedFlows(id: ClientId, now: int)
      requires Shaped()
      modifies clients, flows, slabs, tombstones
      ensures Model() == CloseOwnedFrom(old(Model()), 0, id, now)
    {
      hide CloseSlot, CloseOwnedFrom;
      for index := 0 to MAXIMUM_FLOWS
        invariant CloseOwnedFrom(Model(), index, id, now) == CloseOwnedFrom(old(Model()), 0, id, now)
      {
        CloseOwnedStep(Model(), index, id, now);
        if flows[index].inUse && flows[index].client == id {
          CloseFlowSlot(index, ClientClosed, now, false);
        }
      }
      CloseOwnedEnd(Model(), id, now);
    }

    /** Releases every slab a client's queue names and frees the slot. */
    method EmptyClient(slot: nat)
      requires Shaped() && slot < MAXIMUM_CLIENT_CONTEXTS
      modifies clients, slabs
      ensures var p := old(Model());
              Model() == p.(clients := p.clients[slot := FREE_CLIENT],
                            slabs := ReleaseEntries(p.slabs, p.clients[slot].queue, Anything()))
    {
      ghost var p := Model();
      while clients[slot].count != 0
        invariant Model() == p.(clients := p.clients[slot := Model().clients[slot]], slabs := Model().slabs)
        invariant ReleaseEntries(Model().slabs, Model().clients[slot].queue, Anything())
               == ReleaseEntries(p.slabs, p.clients[slot].queue, Anything())
        decreases clients[slot].count
      {
        var entry := RemoveCompletionFront(slot);
        ReleaseInboundSlab(entry.slab);
      }
      assert View(FREE_SLOT) == FREE_CLIENT;
      StoreClient(slot, FREE_SLOT);
    }

    // -------------------------------------------------------------------------------------------
    // Policy

    method SelectPolicyRoute(remote: Endpoint) returns (route: Option<Route>)
      requires policy.count <= MAXIMUM_POLICY_ROUTES
      ensures route == SelectRoute(policy, remote.address)
    {
      if !policy.available {
        return None;
      }
      for index := 0 to policy.count
        invariant SelectFrom(policy, remote.address, 0) == SelectFrom(policy, remote.address, index)
      {
        if RouteMatches(policy.routes[index], remote.address) {
          return Some(policy.routes[index]);
        }
      }
      return None;
    }

    method EnqueuePolicyChanged()
      requires Shaped()
      modifies clients
      ensures Model() == old(Model()).(clients := AnnouncePolicyFrom(old(Model()).clients, 0, policyGeneration))
    {
      for index := 0 to MAXIMUM_CLIENT_CONTEXTS
        invariant Model() == old(Model()).(clients := Model().clients)
        invariant AnnouncePolicyFrom(Model().clients, index, policyGeneration)
               == AnnouncePolicyFrom(old(Model()).clients, 0, policyGeneration)
      {
        if clients[index].inUse {
          EnqueueControlCompletion(ClientId(index, clients[index].generation), PolicyRecord(policyGeneration));
        }
      }
    }

    method RefreshPolicy(input: PolicyInput, now: int)
      requires Valid()
      modifies this, clients, flows, slabs, tombstones
      ensures Valid() && Model() == FlowPlane.RefreshPolicy(old(Model()), input, now)
    {
      RefreshPolicyInvariant(Model(), input, now);
      assert CountersOk(Model());
      hide Invariant, ResolvePolicy;
      var resolved := ParseAndNormalizePolicy(input);
      if resolved != policy {
        InstallPolicy(resolved, now);
      }
    }

    method InstallPolicy(resolved: Policy, now: int)
      requires Shaped() && resolved.count <= MAXIMUM_POLICY_ROUTES && nextPolicyGeneration != 0
      modifies this, clients, flows, slabs, tombstones
      ensures var p := old(Model());
              var renewed := p.(policy := resolved, policyGeneration := p.nextPolicyGeneration,
                                nextPolicyGeneration := NextNonZero(p.nextPolicyGeneration));
              var applied := ApplyPolicyFrom(renewed, 0, now);
              Model() == applied.(clients := AnnouncePolicyFrom(applied.clients, 0, applied.policyGeneration))
    {
      hide ApplyPolicyFrom, AnnouncePolicyFrom;
      policy := resolved;
      policyGeneration, nextPolicyGeneration := AllocateNonZero(nextPolicyGeneration);
      ApplyPolicy(now);
      EnqueuePolicyChanged();
    }

    method ApplyPolicy(now: int)
      requires Shaped() && policy.count <= MAXIMUM_POLICY_ROUTES
      modifies clients, flows, slabs, tombstones
      ensures Model() == ApplyPolicyFrom(old(Model()), 0, now)
    {
      hide CloseSlot, ApplyPolicyFrom, Covered, SelectRoute;
      for index := 0 to MAXIMUM_FLOWS
        invariant ApplyPolicyFrom(Model(), index, now) == ApplyPolicyFrom(old(Model()), 0, now)
      {
        ApplyPolicyStep(Model(), index, now);
        if flows[index].inUse && !flows[index].closed {
          var route := SelectPolicyRoute(flows[index].remote);
          CoveredByRoute(policy, flows[index].remote.address);
          if !policy.available || flows[index].peer != policy.peer || route.None? {
            CloseFlowSlot(index, PolicyInvalidated, now, true);
          } else {
            StoreFlow(index, flows[index].(policyGeneration := policyGeneration));
          }
        }
      }
      ApplyPolicyEnd(Model(), now);
    }

    // -------------------------------------------------------------------------------------------
    // Flows

    method AllocateFlowGeneration() returns (generation: U32)
      modifies this`nextFlowGeneration
      ensures 0 < generation < 0x100_0000
      ensures old(nextFlowGeneration) % 0x100_0000 != 0 ==>
        generation == old(nextFlowGeneration) % 0x100_0000 && nextFlowGeneration == NextFlowGeneration(old(nextFlowGeneration))
      ensures old(nextFlowGeneration) % 0x100_0000 == 0 ==>
        generation == 1 && nextFlowGeneration == NextFlowGeneration(old(nextFlowGeneration) + 1)
      decreases if nextFlowGeneration % 0x100_0000 == 0 then 1 else 0
    {
      GenerationStep(nextFlowGeneration);
      generation := nextFlowGeneration % 0x100_0000;
      nextFlowGeneration := (nextFlowGeneration + 1) % 0x1_0000_0000;
      if nextFlowGeneration % 0x100_0000 == 0 {
        nextFlowGeneration := (nextFlowGeneration + 1) % 0x1_0000_0000;
      }
      if generation == 0 {
        generation := AllocateFlowGeneration();
      }
    }

    method AllocateVirtualTuple(remote: Endpoint, now: int) returns (port: Option<U16>)
      requires Shaped()
      modifies this`nextPort, tombstones
      ensures var p := old(Model()).(tombstones := ClearExpired(old(Model()).tombstones, now));
              (port, nextPort) == AllocatePort(p, remote, now, PORT_TRIES) && Model() == p.(nextPort := nextPort)
    {
      hide TupleInUse, TupleTombstoned, ClearExpired, AllocatePort;
      ClearExpiredTombstones(now);
      ghost var p := Model();
      for tries := 0 to PORT_TRIES
        invariant Model() == p.(nextPort := nextPort)
        invariant AllocatePort(Model(), remote, now, PORT_TRIES - tries) == AllocatePort(p, remote, now, PORT_TRIES)
      {
        AllocateStep(Model(), remote, now, PORT_TRIES - tries);
        var candidate := nextPort;
        nextPort := (nextPort + 1) % 0x1_0000;
        if nextPort < FIRST_PORT {
          nextPort := FIRST_PORT;
        }
        var taken := TupleTaken(candidate, remote);
        if !taken && !TupleTombstoned(tombstones[..], policy.source, candidate, remote, now) {
          return Some(candidate);
        }
      }
      AllocateEnd(Model(), remote, now);
      return None;
    }

    method TupleTaken(port: U16, remote: Endpoint) returns (taken: bool)
      requires Shaped()
      ensures taken == TupleInUse(flows[..], policy.source, port, remote)
    {
      for index := 0 to MAXIMUM_FLOWS
        invariant forall i :: 0 <= i < index ==> !UsesTuple(flows[i], policy.source, port, remote)
      {
        if UsesTuple(flows[index], policy.source, port, remote) {
          assert UsesTuple(flows[..][index], policy.source, port, remote);
          return true;
        }
      }
      return false;
    }

    method CountOwned(id: ClientId) returns (owned: nat)
      requires Shaped()
      ensures owned == Count(flows[..], OwnedBy(id))
    {
      owned := 0;
      for index := 0 to MAXIMUM_FLOWS
        invariant owned == Count(flows[..index], OwnedBy(id))
      {
        CountSnoc(flows[..index], flows[index], OwnedBy(id));
        assert flows[..index + 1] == flows[..index] + [flows[index]];
        if flows[index].inUse && !flows[index].closed && flows[index].client == id {
          owned := owned + 1;
        }
      }
      assert flows[..MAXIMUM_FLOWS] == flows[..];
    }

    method ReserveConnectedUdpFlow(id: ClientId, request: OpenRequest, now: int, availability: Availability)
      returns (reservation: Reservation)
      requires Valid()
      modifies this, flows, tombstones
      ensures Valid() && (Model(), reservation) == Reserve(old(Model()), id, request, now, availability)
    {
      hide Invariant, ReserveAt, Count, Covered, SelectRoute;
      ReserveInvariant(Model(), id, request, now, availability);
      CountersUsable(Model());
      reservation := Refusal(policyGeneration, MalformedInput);
      if !Holds(id) || request.remote.reserved != 0 || request.remote.port == 0 {
        return;
      }
      if !policy.available || policy.peer.activation == 0 {
        return reservation.(status := PeerUnavailable);
      }
      var route := SelectPolicyRoute(request.remote);
      CoveredByRoute(policy, request.remote.address);
      if route.None? {
        return reservation.(status := RouteNotCovered);
      }
      if !availability.protocol {
        return reservation.(status := if policy.leakProtection then TunnelBlockedByPolicy else TransportUnavailable);
      }
      var owned := CountOwned(id);
      var slot := ReusableFlow(flows[..], 0);
      if owned >= MAXIMUM_FLOWS_PER_CLIENT || slot == MAXIMUM_FLOWS {
        return reservation.(status := FlowQuotaExhausted);
      }
      reservation := ReserveSlot(id, request, now, slot);
    }

    method ReserveSlot(id: ClientId, request: OpenRequest, now: int, slot: nat) returns (reservation: Reservation)
      requires Shaped() && slot < MAXIMUM_FLOWS && nextFlowGeneration % 0x100_0000 != 0
      modifies this, flows, tombstones
      ensures (Model(), reservation) == ReserveAt(old(Model()), id, request, now, slot)
    {
      hide AllocatePort, Handle, ClearExpired, Count;
      reservation := Refusal(policyGeneration, ReverseTupleExhausted);
      ClearExpiredTombstones(now);
      if !HasTombstoneReservation(tombstones[..], flows[..]) {
        return;
      }
      ClearExpiredTwice(old(Model()).tombstones, now);
      var port := AllocateVirtualTuple(request.remote, now);
      if port.None? {
        return;
      }
      var generation := AllocateFlowGeneration();
      var flow := FREE_FLOW.(inUse := true, pending := true, client := id, generation := generation, peer := policy.peer,
                             policyGeneration := policyGeneration, remote := request.remote, source := policy.source,
                             port := port.value, tag := request.tag);
      StoreFlow(slot, flow);
      return Reserved(slot, flow);
    }

    method CommitFlowReservation(reservation: Reservation) returns (committed: bool)
      requires Valid()
      modifies flows
      ensures Valid() && (Model(), committed) == Commit(old(Model()), reservation)
    {
      CommitInvariant(Model(), reservation);
      if !reservation.IsReserved() {
        return false;
      }
      var slot := FindFlowSlot(reservation.client, reservation.flow);
      if slot.None? {
        return false;
      }
      var flow := flows[slot.value];
      if !flow.pending || flow.closed || flow.peer != reservation.peer || !SameEndpoint(flow.remote, reservation.remote) ||
         policy.peer != reservation.peer || policyGeneration != reservation.policyGeneration {
        return false;
      }
      StoreFlow(slot.value, flow.(pending := false));
      return true;
    }

    method CancelFlowReservation(reservation: Reservation)
      requires Valid()
      modifies flows
      ensures Valid() && Model() == Cancel(old(Model()), reservation)
    {
      CancelInvariant(Model(), reservation);
      if !reservation.IsReserved() {
        return;
      }
      var slot := FindFlowSlot(reservation.client, reservation.flow);
      if slot.Some? && flows[slot.value].pending {
        StoreFlow(slot.value, FREE_FLOW);
      }
    }

    method OpenConnectedUdpFlow(id: ClientId, request: OpenRequest, now: int, availability: Availability)
      returns (reservation: Reservation)
      requires Valid()
      modifies this, flows, tombstones
      ensures Valid() && (Model(), reservation) == OpenFlow(old(Model()), id, request, now, availability)
    {
      reservation := ReserveConnectedUdpFlow(id, request, now, availability);
      if reservation.IsReserved() {
        var committed := CommitFlowReservation(reservation);
        if !committed {
          CancelFlowReservation(reservation);
          reservation := reservation.(status := PeerUnavailable, flow := 0);
        }
      }
    }

    method CloseFlow(id: ClientId, handle: nat, now: int) returns (status: ProtocolStatus)
      requires Valid()
      modifies clients, flows, slabs, tombstones
      ensures Valid() && (Model(), status) == FlowPlane.CloseFlow(old(Model()), id, handle, now)
    {
      CloseFlowInvariant(Model(), id, handle, now);
      var slot := FindFlowSlot(id, handle);
      if slot.None? {
        return StaleHandle;
      }
      if !flows[slot.value].closed {
        CloseFlowSlot(slot.value, ClientClosed, now, true);
      }
      return Success;
    }

    method InvalidatePeerActivation(peer: PeerIdentity, reason: TerminalReason, now: int)
      requires Valid()
      modifies clients, flows, slabs, tombstones
      ensures Valid() && Model() == InvalidateFrom(old(Model()), 0, peer, reason, now)
    {
      InvalidateInvariant(Model(), 0, peer, reason, now);
      hide Invariant;
      CloseActivation(peer, reason, now);
    }

    method CloseActivation(peer: PeerIdentity, reason: TerminalReason, now: int)
      requires Shaped()
      modifies clients, flows, slabs, tombstones
      ensures Model() == InvalidateFrom(old(Model()), 0, peer, reason, now)
    {
      hide CloseSlot, InvalidateFrom;
      for index := 0 to MAXIMUM_FLOWS
        invariant InvalidateFrom(Model(), index, peer, reason, now) == InvalidateFrom(old(Model()), 0, peer, reason, now)
      {
        InvalidateStep(Model(), index, peer, reason, now);
        if flows[index].inUse && !flows[index].closed && !flows[index].pending && flows[index].peer == peer {
          CloseFlowSlot(index, reason, now, true);
        }
      }
      InvalidateEnd(Model(), peer, reason, now);
    }

    // -------------------------------------------------------------------------------------------
    // Sending

    method PrepareSend(id: ClientId, handle: nat, declaredSize: nat, size: nat, availability: Availability)
      returns (prepared: Prepared)
      requires Valid()
      modifies flows
      ensures Valid()
      ensures (Model(), prepared) == FlowPlane.PrepareSend(old(Model()), id, handle, declaredSize, size, availability)
    {
      PrepareSendInvariant(Model(), id, handle, declaredSize, size, availability);
      prepared := Prepared(MalformedInput, NO_PEER, handle, 0);
      if declaredSize != size {
        return;
      }
      if size > MAXIMUM_UDP_PAYLOAD_BYTES {
        return prepared.(status := DatagramTooLarge);
      }
      var slot := FindFlowSlot(id, handle);
      if slot.None? {
        return prepared.(status := StaleHandle);
      }
      var flow := flows[slot.value];
      if flow.closed || flow.pending {
        return prepared.(status := FlowClosed);
      }
      if !policy.available || flow.peer != policy.peer {
        return prepared.(status := PeerUnavailable);
      }
      if !availability.protocol {
        return prepared.(status := TransportUnavailable);
      }
      if !availability.staging {
        StoreFlow(slot.value, flow.(writableWaiter := true));
        return prepared.(status := QueueFull);
      }
      return Prepared(Success, flow.peer, handle, handle);
    }

    method CompleteSend(prepared: Prepared, status: ProtocolStatus)
      requires Valid()
      modifies flows
      ensures Valid() && Model() == FlowPlane.CompleteSend(old(Model()), prepared, status)
    {
      CompleteSendInvariant(Model(), prepared, status);
      if !prepared.IsPrepared() {
        return;
      }
      var slot := FindTokenSlot(prepared.flow);
      if slot.Some? && (status == QueueFull || status == Success) {
        StoreFlow(slot.value, flows[slot.value].(writableWaiter := status == QueueFull));
      }
    }

    method NotifyOutboundCapacityAvailable(peer: PeerIdentity)
      requires Valid()
      modifies clients, flows
      ensures Valid() && Model() == NotifyCapacityFrom(old(Model()), 0, peer)
    {
      NotifyCapacityInvariant(Model(), 0, peer);
      hide Invariant;
      WakeWaiters(peer);
    }

    method WakeWaiters(peer: PeerIdentity)
      requires Shaped()
      modifies clients, flows
      ensures Model() == NotifyCapacityFrom(old(Model()), 0, peer)
    {
      hide EnqueueControl, NotifyCapacityFrom;
      for index := 0 to MAXIMUM_FLOWS
        invariant NotifyCapacityFrom(Model(), index, peer) == NotifyCapacityFrom(old(Model()), 0, peer)
      {
        NotifyStep(Model(), index, peer);
        var flow := flows[index];
        if flow.inUse && !flow.closed && !flow.pending && flow.peer == peer && flow.writableWaiter {
          StoreFlow(index, flow.(writableWaiter := false));
          EnqueueControlCompletion(flow.client, WritableRecord(index, flow));
        }
      }
      NotifyEnd(Model(), peer);
    }

    // -------------------------------------------------------------------------------------------
    // Receiving

    method DeliverInboundUdpDatagram(
      peer: PeerIdentity, generation: U32, token: nat, remote: Endpoint, payload: seq<Byte>)
      returns (disposition: Disposition)
      requires Valid()
      modifies clients, flows, slabs
      ensures Valid() && (Model(), disposition) == Deliver(old(Model()), peer, generation, token, remote, payload)
    {
      DeliverInvariant(Model(), peer, generation, token, remote, payload);
      hide Invariant, StoreOrDrop, FindToken;
      if token == 0 || |payload| > MAXIMUM_UDP_PAYLOAD_BYTES {
        return DroppedMalformed;
      }
      var slot := FindTokenSlot(token);
      if slot.None? {
        return DroppedUnknown;
      }
      var flow := flows[slot.value];
      if flow.closed || flow.pending || !Holds(flow.client) || flow.peer != peer || flow.policyGeneration != generation ||
         policyGeneration != generation || policy.peer != peer || !SameEndpoint(flow.remote, remote) {
        return DroppedStale;
      }
      if flow.occupancy >= MAXIMUM_INBOUND_PER_FLOW {
        return DroppedQueueFull;
      }
      disposition := StoreInbound(slot.value, payload);
    }

    /** Takes a slab for the payload and queues it, undoing both when the queue is full. */
    method StoreInbound(slot: nat, payload: seq<Byte>) returns (disposition: Disposition)
      requires Shaped() && slot < MAXIMUM_FLOWS && Holds(flows[slot].client)
      modifies clients, flows, slabs
      ensures (Model(), disposition) == StoreOrDrop(old(Model()), slot, payload)
    {
      ghost var p := Model();
      hide FreeSlab, StoreOrDrop, Enqueued;
      StoreOutcome(p, slot, payload);
      var slab := AllocateInboundSlab();
      if slab == NO_SLAB {
        return DroppedQueueFull;
      }
      FillSlab(slot, slab, payload);
      var stored := EnqueueDataCompletion(slot, slab);
      return if stored then Delivered else DroppedQueueFull;
    }

    method FillSlab(slot: nat, slab: nat, payload: seq<Byte>)
      requires Shaped() && slot < MAXIMUM_FLOWS && slab < INBOUND_SLAB_COUNT
      modifies flows, slabs
      ensures Model() == Filled(old(Model()), slot, slab, payload)
    {
      StoreSlab(slab, slabs[slab].(bytes := payload));
      StoreFlow(slot, flows[slot].(occupancy := flows[slot].occupancy + 1));
    }

    /** Takes the front completion, giving its slab and its flow's share of the queue back. */
    method TakeFront(id: ClientId) returns (entry: Entry, bytes: seq<Byte>)
      requires Valid() && Holds(id) && clients[id.slot].count > 0
      modifies clients, flows, slabs
      ensures Valid() && Holds(id) && Model() == PopFront(old(Model()), id)
      ensures entry == old(Model()).clients[id.slot].queue[0] && bytes == PayloadOf(old(slabs[..]), entry)
    {
      assert EntryOk(Queue(clients[id.slot])[0]) by { assert ClientOk(Model().clients[id.slot]); }
      PopInvariant(Model(), id);
      hide Invariant, PopFront;
      entry, bytes := UnloadFront(id);
    }

    method UnloadFront(id: ClientId) returns (entry: Entry, bytes: seq<Byte>)
      requires Shaped() && Holds(id) && clients[id.slot].count > 0 && EntryOk(Queue(clients[id.slot])[0])
      modifies clients, flows, slabs
      ensures Holds(id) && Model() == PopFront(old(Model()), id)
      ensures entry == old(Model()).clients[id.slot].queue[0] && bytes == PayloadOf(old(slabs[..]), entry)
    {
      entry := RemoveCompletionFront(id.slot);
      bytes := [];
      if entry.slab != NO_SLAB {
        bytes := slabs[entry.slab].bytes;
        ReleaseInboundSlab(entry.slab);
        var slot := FindFlowSlot(id, entry.record.flow);
        if slot.Some? && flows[slot.value].occupancy > 0 {
          StoreFlow(slot.value, flows[slot.value].(occupancy := flows[slot.value].occupancy - 1));
        }
      }
    }

    /** Whether the front completion's payload fits in the room left. */
    predicate FrontFits(slot: nat, room: nat)
      requires Shaped() && slot < MAXIMUM_CLIENT_CONTEXTS && clients[slot].count > 0
      reads clients, slabs
      ensures FrontFits(slot, room) == (room >= |PayloadOf(slabs[..], Queue(clients[slot])[0])|)
    {
      var slab := CompletionAt(clients[slot], 0).slab;
      slab >= INBOUND_SLAB_COUNT || room >= |slabs[slab].bytes|
    }

    /** Moves the front completion into the caller's buffers, behind the `count` records already there. */
    method HandOutFront(id: ClientId, records: array<CompletionRecord>, payload: array<Byte>, count: nat, offset: nat)
      returns (next: nat)
      requires Valid() && Holds(id) && clients[id.slot].count > 0 && count < records.Length && offset <= payload.Length
      requires FrontFits(id.slot, payload.Length - offset)
      modifies clients, flows, slabs, records, payload
      ensures Valid() && Holds(id) && Model() == PopFront(old(Model()), id) && offset <= next <= payload.Length
      ensures Drained(records[..count + 1], payload[..next]) ==
              WithEntry(old(slabs[..]), old(Model()).clients[id.slot].queue[0],
                        Drained(old(records[..])[..count], old(payload[..])[..offset]))
      ensures records[count + 1..] == old(records[..])[count + 1..] && payload[next..] == old(payload[..])[next..]
    {
      hide Invariant, PopFront;
      var entry, bytes := TakeFront(id);
      records[count] := HandedOutRecord(entry, offset, |bytes|);
      CopyInto(payload, offset, bytes);
      next := offset + |bytes|;
      assert records[..count + 1] == old(records[..])[..count] + [records[count]];
    }

    /** Drains records and payload bytes into the caller's buffers while both fit. */
    method DrainInto(id: ClientId, records: array<CompletionRecord>, payload: array<Byte>)
      returns (count: nat, offset: nat)
      requires Valid() && Holds(id)
      modifies clients, flows, slabs, records, payload
      ensures Valid() && count <= records.Length && offset <= payload.Length
      ensures (Model(), Drained(records[..count], payload[..offset]))
           == Drain(old(Model()), id, records.Length, payload.Length, Drained([], []))
      ensures records[count..] == old(records[..])[count..] && payload[offset..] == old(payload[..])[offset..]
    {
      hide Invariant, PopFront, FindFlow, Drain, WithEntry, PayloadOf;
      count, offset := 0, 0;
      while count < records.Length && clients[id.slot].count != 0 && FrontFits(id.slot, payload.Length - offset)
        invariant Valid() && Holds(id) && count <= records.Length && offset <= payload.Length
        invariant Drain(Model(), id, records.Length, payload.Length, Drained(records[..count], payload[..offset]))
               == Drain(old(Model()), id, records.Length, payload.Length, Drained([], []))
        invariant records[count..] == old(records[..])[count..] && payload[offset..] == old(payload[..])[offset..]
        decreases records.Length - count
      {
        DrainStep(Model(), id, records.Length, payload.Length, Drained(records[..count], payload[..offset]));
        ghost var before := records[..];
        offset := HandOutFront(id, records, payload, count, offset);
        assert records[count + 1..] == before[count..][1..];
        count := count + 1;
      }
      DrainStep(Model(), id, records.Length, payload.Length, Drained(records[..count], payload[..offset]));
    }

    method ReceiveCompletions(id: ClientId, records: array<CompletionRecord>, payload: array<Byte>)
      returns (status: ProtocolStatus, count: nat)
      requires Valid()
      modifies clients, flows, slabs, records, payload
      ensures Valid() && count <= records.Length
      ensures var (q, outcome, drained) := Receive(old(Model()), id, records.Length, payload.Length);
              Model() == q && status == outcome && records[..count] == drained.records &&
              records[count..] == old(records[..])[count..] &&
              |drained.payload| <= payload.Length && payload[..|drained.payload|] == drained.payload &&
              payload[|drained.payload|..] == old(payload[..])[|drained.payload|..]
    {
      hide Invariant;
      if !Holds(id) {
        return StaleHandle, 0;
      }
      if records.Length == 0 {
        return OutputBufferTooSmall, 0;
      }
      var empty := clients[id.slot].count == 0;
      var offset: nat;
      count, offset := DrainInto(id, records, payload);
      status := if count > 0 then Success else if empty then QueueEmpty else OutputBufferTooSmall;
    }
  }

  function HandedOutRecord(entry: Entry, offset: nat, size: nat): CompletionRecord {
    if !IsData(entry) then entry.record else entry.record.(payloadOffset := offset, payloadSize := size)
  }

  method CopyInto(target: array<Byte>, offset: nat, bytes: seq<Byte>)
    requires offset + |bytes| <= target.Length
    modifies target
    ensures target[..] == old(target[..])[..offset] + bytes + old(target[..])[offset + |bytes|..]
  {
    forall i | 0 <= i < |bytes| {
      target[offset + i] := bytes[i];
    }
  }

  lemma ClearExpiredTwice(tombstones: Tombstones, now: int)
    ensures ClearExpired(ClearExpired(tombstones, now), now) == ClearExpired(tombstones, now)
  {
  }

  // ---------------------------------------------------------------------------------------------
  // One turn of the loops over the flow table

  lemma RetainStep(queue: seq<Entry>, index: nat, handle: nat)
    requires index < |queue|
    ensures Filter(queue[..index + 1], NotDataOf(handle)) ==
            Filter(queue[..index], NotDataOf(handle)) + (if DataOf(handle)(queue[index]) then [] else [queue[index]])
    ensures DataOf(handle)(queue[index]) ==> Filter(queue[..index + 1], NotDataOf(handle)) == Filter(queue[..index], NotDataOf(handle))
  {
    assert queue[..index + 1] == queue[..index] + [queue[index]];
    FilterAppend(queue[..index], [queue[index]], NotDataOf(handle));
  }

  lemma ReleaseStep(slabs: Slabs, queue: seq<Entry>, index: nat, handle: nat)
    requires index < |queue|
    ensures ReleaseEntries(slabs, queue[index..], DataOf(handle)) ==
            ReleaseEntries(if DataOf(handle)(queue[index]) then ReleaseSlab(slabs, queue[index].slab) else slabs,
                           queue[index + 1..], DataOf(handle))
  {
    assert queue[index..][1..] == queue[index + 1..];
    hide ReleaseSlab;
  }

  /** The counter behind a 24-bit zero is at one. */
  lemma GenerationStep(next: U32)
    ensures next % 0x100_0000 == 0 ==>
            next + 1 < 0x1_0000_0000 && (next + 1) % 0x1_0000_0000 == next + 1 && (next + 1) % 0x100_0000 == 1
  {
    if next % 0x100_0000 == 0 {
      var q := next / 0x100_0000;
      assert next == q * 0x100_0000;
      Packed(q, 1, 0x100_0000);
    }
  }

  /** A stored datagram, put together from the tables' parts. */
  /** A datagram in its slab, counted by its flow. */
  function Filled(p: Plane, slot: nat, slab: nat, payload: seq<Byte>): Plane
    requires slot < MAXIMUM_FLOWS && slab < INBOUND_SLAB_COUNT
  {
    var f := p.flows[slot];
    p.(slabs := p.slabs[slab := p.slabs[slab].(bytes := payload)], flows := p.flows[slot := f.(occupancy := f.occupancy + 1)])
  }

  /** What queueing a stored datagram leaves: an entry behind the client's last, or the slab and the flow's count given back. */
  function Enqueued(p: Plane, slot: nat, slab: nat): (Plane, bool)
    requires slot < MAXIMUM_FLOWS && slab < INBOUND_SLAB_COUNT && p.flows[slot].client.slot < MAXIMUM_CLIENT_CONTEXTS
    requires p.flows[slot].occupancy > 0
  {
    var f := p.flows[slot];
    var c := p.clients[f.client.slot];
    if c.dataCount < DATA_COMPLETION_CAPACITY && |c.queue| < COMPLETION_QUEUE_CAPACITY
    then (p.(clients := p.clients[f.client.slot :=
            c.(queue := c.queue + [Entry(DataRecord(slot, f, |p.slabs[slab].bytes|), slab)],
               dataCount := c.dataCount + 1, event := c.event || |c.queue| == 0)]),
          true)
    else (p.(slabs := ReleaseSlab(p.slabs, slab), flows := p.flows[slot := f.(occupancy := f.occupancy - 1)]), false)
  }

  /** Claiming a slab, filling it, counting the datagram and queueing it is storing it or dropping it. */
  lemma StoreOutcome(p: Plane, slot: nat, payload: seq<Byte>)
    requires slot < MAXIMUM_FLOWS && p.flows[slot].client.slot < MAXIMUM_CLIENT_CONTEXTS
    ensures var slab := FreeSlab(p.slabs, 0);
            if slab == INBOUND_SLAB_COUNT then StoreOrDrop(p, slot, payload) == (p, DroppedQueueFull)
            else
              var claimed := p.(slabs := p.slabs[slab := p.slabs[slab].(inUse := true)]);
              var (q, stored) := Enqueued(Filled(claimed, slot, slab, payload), slot, slab);
              StoreOrDrop(p, slot, payload) == (q, if stored then Delivered else DroppedQueueFull)
  {
    hide FreeSlab;
    var slab := FreeSlab(p.slabs, 0);
    if slab < INBOUND_SLAB_COUNT {
      WrittenTwice(p, slot, slab, payload);
    }
  }

  lemma DrainStep(p: Plane, id: ClientId, records: nat, capacity: nat, out: Drained)
    requires IsClient(p.clients, id)
    ensures var queue := p.clients[id.slot].queue;
            Drain(p, id, records, capacity, out) ==
              if |out.records| >= records || queue == [] || capacity - |out.payload| < |PayloadOf(p.slabs, queue[0])|
              then (p, out)
              else Drain(PopFront(p, id), id, records, capacity, WithEntry(p.slabs, queue[0], out))
  {
    hide PopFront, WithEntry, PayloadOf;
  }

  lemma CountersUsable(p: Plane)
    requires Invariant(p)
    ensures p.nextFlowGeneration % 0x100_0000 != 0 && p.policy.count <= MAXIMUM_POLICY_ROUTES
  {
  }

  lemma AllocateStep(p: Plane, remote: Endpoint, now: int, tries: nat)
    requires tries > 0
    ensures AllocatePort(p, remote, now, tries) ==
            if !TupleInUse(p.flows, p.policy.source, p.nextPort, remote) &&
               !TupleTombstoned(p.tombstones, p.policy.source, p.nextPort, remote, now)
            then (Some(p.nextPort), NextPort(p.nextPort))
            else AllocatePort(p.(nextPort := NextPort(p.nextPort)), remote, now, tries - 1)
  {
    hide TupleInUse, TupleTombstoned, NextPort;
  }

  lemma AllocateEnd(p: Plane, remote: Endpoint, now: int)
    ensures AllocatePort(p, remote, now, 0) == (None, p.nextPort)
  {
  }

  /** Claiming a slab, filling it and giving it back; counting a datagram and discounting it. */
  lemma WrittenTwice(p: Plane, slot: nat, slab: nat, payload: seq<Byte>)
    requires slot < MAXIMUM_FLOWS && slab < INBOUND_SLAB_COUNT
    ensures var f := p.flows[slot];
            p.slabs[slab := Slab(true, p.slabs[slab].bytes)][slab := Slab(true, payload)] == p.slabs[slab := Slab(true, payload)] &&
            ReleaseSlab(p.slabs[slab := Slab(true, payload)], slab) == p.slabs[slab := FREE_SLAB] &&
            p.flows[slot := f.(occupancy := f.occupancy + 1)][slot := f] == p.flows
  {
  }

  lemma InvalidateStep(p: Plane, slot: nat, peer: PeerIdentity, reason: TerminalReason, now: int)
    requires slot < MAXIMUM_FLOWS
    ensures InvalidateFrom(p, slot, peer, reason, now) ==
            InvalidateFrom(if IsCommitted(p.flows[slot]) && p.flows[slot].peer == peer
                           then CloseSlot(p, slot, reason, now, true) else p, slot + 1, peer, reason, now)
  {
    hide CloseSlot;
  }

  lemma InvalidateEnd(p: Plane, peer: PeerIdentity, reason: TerminalReason, now: int)
    ensures InvalidateFrom(p, MAXIMUM_FLOWS, peer, reason, now) == p
  {
  }

  lemma ApplyPolicyStep(p: Plane, slot: nat, now: int)
    requires slot < MAXIMUM_FLOWS
    ensures ApplyPolicyFrom(p, slot, now) == ApplyPolicyFrom(ApplyPolicyAt(p, slot, now), slot + 1, now)
  {
    hide ApplyPolicyAt;
  }

  lemma ApplyPolicyEnd(p: Plane, now: int)
    ensures ApplyPolicyFrom(p, MAXIMUM_FLOWS, now) == p
  {
  }

  lemma CoveredByRoute(policy: Policy, address: Ipv4)
    ensures Covered(policy, address) <==> SelectRoute(policy, address).Some?
  {
    hide SelectRoute;
  }

  lemma NotifyStep(p: Plane, slot: nat, peer: PeerIdentity)
    requires slot < MAXIMUM_FLOWS
    ensures var f := p.flows[slot];
            NotifyCapacityFrom(p, slot, peer) ==
            NotifyCapacityFrom(if !AwaitsCapacity(f, peer) then p
                               else SetWaiter(p, slot, false).(clients := EnqueueControl(p.clients, f.client, WritableRecord(slot, f))),
                               slot + 1, peer)
  {
    hide EnqueueControl;
  }

  lemma NotifyEnd(p: Plane, peer: PeerIdentity)
    ensures NotifyCapacityFrom(p, MAXIMUM_FLOWS, peer) == p
  {
  }

  lemma CloseOwnedStep(p: Plane, slot: nat, id: ClientId, now: int)
    requires slot < MAXIMUM_FLOWS
    ensures CloseOwnedFrom(p, slot, id, now) ==
            CloseOwnedFrom(if p.flows[slot].inUse && p.flows[slot].client == id
                           then CloseSlot(p, slot, ClientClosed, now, false) else p, slot + 1, id, now)
  {
    hide CloseSlot;
  }

  lemma CloseOwnedEnd(p: Plane, id: ClientId, now: int)
    ensures CloseOwnedFrom(p, MAXIMUM_FLOWS, id, now) == p
  {
  }
}
