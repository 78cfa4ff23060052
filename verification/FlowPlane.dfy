/**
 * The tunnel flow plane as a value: clients, flows, inbound slabs, reverse-tuple tombstones and the
 * routing policy, with one function per operation.  A client's completion ring appears here as the
 * queue it implements.
 */
module FlowPlane {
  import opened Counting
  import opened TunnelProtocol
  import opened Routing

  const NO_SLAB: nat := 0xFF
  const QUARANTINE_NS: int := 60_000_000_000
  const FIRST_PORT: U16 := 49152
  const LAST_PORT: U16 := 65535
  const PORT_TRIES: nat := 16384

  datatype ClientId = ClientId(slot: nat, generation: U32)

  const NO_CLIENT := ClientId(0xFF, 0)

  datatype Entry = Entry(record: CompletionRecord, slab: nat)

  datatype Client = Client(
    inUse: bool, generation: U32, queue: seq<Entry>, dataCount: nat, event: bool)

  datatype Flow = Flow(
    inUse: bool,
    closed: bool,
    pending: bool,
    client: ClientId,
    generation: U32,
    peer: PeerIdentity,
    policyGeneration: U32,
    remote: Endpoint,
    source: Ipv4,
    port: U16,
    occupancy: nat,
    tag: nat,
    reason: TerminalReason,
    writableWaiter: bool)

  datatype Slab = Slab(inUse: bool, bytes: seq<Byte>)

  datatype Tombstone = Tombstone(
    occupied: bool, source: Ipv4, port: U16, remote: Endpoint, expiresAt: int)

  const FREE_CLIENT := Client(false, 0, [], 0, false)
  const FREE_FLOW :=
    Flow(false, false, false, NO_CLIENT, 0, NO_PEER, 0, ZERO_ENDPOINT, ZERO_IPV4, 0, 0, 0, NoReason, false)
  const FREE_SLAB := Slab(false, [])
  const FREE_TOMBSTONE := Tombstone(false, ZERO_IPV4, 0, ZERO_ENDPOINT, 0)

  type Clients = s: seq<Client> | |s| == MAXIMUM_CLIENT_CONTEXTS
    witness [FREE_CLIENT, FREE_CLIENT, FREE_CLIENT, FREE_CLIENT]
  type Flows = s: seq<Flow> | |s| == MAXIMUM_FLOWS witness Repeat(FREE_FLOW, MAXIMUM_FLOWS)
  type Slabs = s: seq<Slab> | |s| == INBOUND_SLAB_COUNT witness Repeat(FREE_SLAB, INBOUND_SLAB_COUNT)
  type Tombstones = s: seq<Tombstone> | |s| == TOMBSTONE_CAPACITY
    witness Repeat(FREE_TOMBSTONE, TOMBSTONE_CAPACITY)

  datatype Plane = Plane(
    clients: Clients,
    flows: Flows,
    slabs: Slabs,
    tombstones: Tombstones,
    policy: Policy,
    policyGeneration: U32,
    nextPolicyGeneration: U32,
    nextClientGeneration: U32,
    nextFlowGeneration: U32,
    nextPort: U16)

  function InitialPlane(): Plane {
    Plane(
      Repeat(FREE_CLIENT, MAXIMUM_CLIENT_CONTEXTS), Repeat(FREE_FLOW, MAXIMUM_FLOWS),
      Repeat(FREE_SLAB, INBOUND_SLAB_COUNT), Repeat(FREE_TOMBSTONE, TOMBSTONE_CAPACITY),
      NO_POLICY, 1, 2, 1, 1, FIRST_PORT)
  }

  // ---------------------------------------------------------------------------------------------
  // Handles

  /** The public handle of flow slot `slot`: client generation, flow generation, client slot, flow slot. */
  function Handle(slot: nat, flow: Flow): nat {
    flow.client.generation * 0x1_0000_0000 + (flow.generation % 0x100_0000) * 0x100 + flow.client.slot * 16 + slot
  }

  datatype DecodedHandle = DecodedHandle(slot: nat, generation: nat, client: ClientId)

  /** Bits 6 and 7 are ignored, so decoding is not injective; a zero generation never decodes. */
  function DecodeHandle(handle: nat): Option<DecodedHandle> {
    var generation := (handle / 0x100) % 0x100_0000;
    var clientGeneration := (handle / 0x1_0000_0000) % 0x1_0000_0000;
    if handle == 0 || generation == 0 || clientGeneration == 0 then None
    else Some(DecodedHandle(handle % 16, generation, ClientId((handle / 16) % 4, clientGeneration)))
  }

  predicate IsClient(clients: Clients, id: ClientId) {
    id.slot < MAXIMUM_CLIENT_CONTEXTS && id.generation != 0 &&
    clients[id.slot].inUse && clients[id.slot].generation == id.generation
  }

  /** The slot a client's handle names, if the flow is still allocated to that client. */
  function FindFlow(p: Plane, id: ClientId, handle: nat): Option<nat> {
    var decoded := DecodeHandle(handle);
    if !IsClient(p.clients, id) || decoded.None? || decoded.value.client != id then None
    else
      var flow := p.flows[decoded.value.slot];
      if flow.inUse && flow.generation == decoded.value.generation && flow.client == id
      then Some(decoded.value.slot) else None
  }

  /** The slot whose allocated flow has exactly this handle. */
  function FindToken(flows: Flows, handle: nat): Option<nat> {
    var slot := handle % 16;
    if flows[slot].inUse && Handle(slot, flows[slot]) == handle then Some(slot) else None
  }

  predicate IsLive(flow: Flow) {
    flow.inUse && !flow.closed
  }

  predicate IsCommitted(flow: Flow) {
    IsLive(flow) && !flow.pending
  }

  // ---------------------------------------------------------------------------------------------
  // Completion queues and slabs

  predicate IsData(e: Entry) {
    e.slab != NO_SLAB
  }

  function DataOf(handle: nat): Entry -> bool {
    e => IsData(e) && e.record.flow == handle
  }

  function NotDataOf(handle: nat): Entry -> bool {
    e => !(IsData(e) && e.record.flow == handle)
  }

  predicate SameKey(e: Entry, record: CompletionRecord) {
    !IsData(e) && e.record.kind == record.kind && e.record.flow == record.flow
  }

  /** The first control entry at or after `from` with the record's kind and flow, or the queue's length. */
  function KeyIndex(queue: seq<Entry>, record: CompletionRecord, from: nat): (i: nat)
    requires from <= |queue|
    ensures from <= i <= |queue|
    ensures i < |queue| ==> SameKey(queue[i], record)
    ensures forall j :: from <= j < i ==> !SameKey(queue[j], record)
    decreases |queue| - from
  {
    if from == |queue| || SameKey(queue[from], record) then from else KeyIndex(queue, record, from + 1)
  }

  /** Control completions coalesce by kind and flow, and are dropped only at a full ring. */
  function PushControl(queue: seq<Entry>, record: CompletionRecord): seq<Entry> {
    var i := KeyIndex(queue, record, 0);
    if i < |queue| then queue[i := queue[i].(record := record)]
    else if |queue| >= COMPLETION_QUEUE_CAPACITY then queue
    else queue + [Entry(record, NO_SLAB)]
  }

  function ControlPushed(c: Client, record: CompletionRecord): Client {
    var queue := PushControl(c.queue, record);
    c.(queue := queue, event := c.event || |c.queue| == 0)
  }

  function EnqueueControl(clients: Clients, id: ClientId, record: CompletionRecord): Clients {
    if !IsClient(clients, id) then clients
    else clients[id.slot := ControlPushed(clients[id.slot], record)]
  }

  function ReleaseSlab(slabs: Slabs, slab: nat): Slabs {
    if slab < INBOUND_SLAB_COUNT then slabs[slab := FREE_SLAB] else slabs
  }

  /** Releases the slabs of the entries that satisfy `f`. */
  function ReleaseEntries(slabs: Slabs, queue: seq<Entry>, f: Entry -> bool): Slabs
    decreases |queue|
  {
    if queue == [] then slabs
    else ReleaseEntries(if f(queue[0]) then ReleaseSlab(slabs, queue[0].slab) else slabs, queue[1..], f)
  }

  /** Drops a flow's queued datagrams and releases their slabs; control entries stay. */
  function RemoveFlowCompletions(p: Plane, client: nat, handle: nat): Plane
    requires client < MAXIMUM_CLIENT_CONTEXTS
  {
    var c := p.clients[client];
    var kept := Filter(c.queue, NotDataOf(handle));
    p.(clients := p.clients[client := c.(queue := kept, dataCount := Count(kept, IsData))],
       slabs := ReleaseEntries(p.slabs, c.queue, DataOf(handle)))
  }

  /** The first free slab at or after `from`. */
  function FreeSlab(slabs: Slabs, from: nat): (i: nat)
    requires from <= INBOUND_SLAB_COUNT
    ensures from <= i <= INBOUND_SLAB_COUNT
    ensures i < INBOUND_SLAB_COUNT ==> !slabs[i].inUse
    ensures forall j :: from <= j < i ==> slabs[j].inUse
    decreases INBOUND_SLAB_COUNT - from
  {
    if from == INBOUND_SLAB_COUNT || !slabs[from].inUse then from else FreeSlab(slabs, from + 1)
  }

  // ---------------------------------------------------------------------------------------------
  // Tombstones and virtual ports

  function Expire(t: Tombstone, now: int): Tombstone {
    if t.occupied && t.expiresAt <= now then FREE_TOMBSTONE else t
  }

  function ClearExpired(tombstones: Tombstones, now: int): Tombstones {
    seq(TOMBSTONE_CAPACITY, i requires 0 <= i < TOMBSTONE_CAPACITY => Expire(tombstones[i], now))
  }

  predicate IsFreeTombstone(t: Tombstone) {
    !t.occupied
  }

  /** The first free tombstone at or after `from`. */
  function FreeTombstone(tombstones: Tombstones, from: nat): (i: nat)
    requires from <= TOMBSTONE_CAPACITY
    ensures from <= i <= TOMBSTONE_CAPACITY
    ensures i < TOMBSTONE_CAPACITY ==> !tombstones[i].occupied
    ensures forall j :: from <= j < i ==> tombstones[j].occupied
    decreases TOMBSTONE_CAPACITY - from
  {
    if from == TOMBSTONE_CAPACITY || !tombstones[from].occupied then from else FreeTombstone(tombstones, from + 1)
  }

  function Quarantine(tombstones: Tombstones, flow: Flow, now: int): Tombstones {
    if flow.port == 0 then tombstones
    else
      var cleared := ClearExpired(tombstones, now);
      var i := FreeTombstone(cleared, 0);
      if i == TOMBSTONE_CAPACITY then cleared
      else cleared[i := Tombstone(true, flow.source, flow.port, flow.remote, now + QUARANTINE_NS)]
  }

  predicate HasTombstoneReservation(cleared: Tombstones, flows: Flows) {
    Count(cleared, IsFreeTombstone) > Count(flows, IsLive)
  }

  predicate UsesTuple(flow: Flow, source: Ipv4, port: U16, remote: Endpoint) {
    IsLive(flow) && flow.port == port && flow.source == source && SameEndpoint(flow.remote, remote)
  }

  predicate BlocksTuple(t: Tombstone, source: Ipv4, port: U16, remote: Endpoint, now: int) {
    t.occupied && t.expiresAt > now && t.source == source && t.port == port && SameEndpoint(t.remote, remote)
  }

  predicate TupleInUse(flows: Flows, source: Ipv4, port: U16, remote: Endpoint) {
    exists i :: 0 <= i < MAXIMUM_FLOWS && UsesTuple(flows[i], source, port, remote)
  }

  predicate TupleTombstoned(tombstones: Tombstones, source: Ipv4, port: U16, remote: Endpoint, now: int) {
    exists i :: 0 <= i < TOMBSTONE_CAPACITY && BlocksTuple(tombstones[i], source, port, remote, now)
  }

  predicate TupleFree(p: Plane, port: U16, remote: Endpoint, now: int) {
    !TupleInUse(p.flows, p.policy.source, port, remote) &&
    !TupleTombstoned(p.tombstones, p.policy.source, port, remote, now)
  }

  /** The 16-bit port counter, kept inside the dynamic range when it wraps. */
  function NextPort(port: U16): U16 {
    var following := (port + 1) % 0x1_0000;
    if following < FIRST_PORT then FIRST_PORT else following
  }

  /** The port allocated after at most `tries` probes, with the counter left behind. */
  function AllocatePort(p: Plane, remote: Endpoint, now: int, tries: nat): (Option<U16>, U16)
    decreases tries
  {
    if tries == 0 then (None, p.nextPort)
    else if TupleFree(p, p.nextPort, remote, now) then (Some(p.nextPort), NextPort(p.nextPort))
    else AllocatePort(p.(nextPort := NextPort(p.nextPort)), remote, now, tries - 1)
  }

  // ---------------------------------------------------------------------------------------------
  // Closing

  function ClosedRecord(slot: nat, flow: Flow, reason: TerminalReason): CompletionRecord {
    BlankRecord(FlowStateChanged, FlowClosed, Handle(slot, flow))
      .(activation := flow.peer.activation, policyGeneration := flow.policyGeneration,
        flowState := Closed, reason := reason)
  }

  function CloseSlot(p: Plane, slot: nat, reason: TerminalReason, now: int, notify: bool): Plane
    requires slot < MAXIMUM_FLOWS
  {
    var flow := p.flows[slot];
    if !IsLive(flow) then p
    else if flow.pending then p.(flows := p.flows[slot := FREE_FLOW])
    else
      var drained :=
        if IsClient(p.clients, flow.client) then RemoveFlowCompletions(p, flow.client.slot, Handle(slot, flow)) else p;
      var closed := drained.(
        tombstones := Quarantine(p.tombstones, flow, now),
        flows := p.flows[slot := flow.(closed := true, reason := reason, occupancy := 0)]);
      if notify
      then closed.(clients := EnqueueControl(closed.clients, flow.client, ClosedRecord(slot, flow, reason)))
      else closed
  }

  // ---------------------------------------------------------------------------------------------
  // Clients

  function CreateClientAt(p: Plane, slot: nat): (Plane, ClientId)
    requires slot <= MAXIMUM_CLIENT_CONTEXTS
    decreases MAXIMUM_CLIENT_CONTEXTS - slot
  {
    if slot == MAXIMUM_CLIENT_CONTEXTS then (p, NO_CLIENT)
    else if p.clients[slot].inUse then CreateClientAt(p, slot + 1)
    else (p.(clients := p.clients[slot := FREE_CLIENT.(inUse := true, generation := p.nextClientGeneration)],
             nextClientGeneration := NextNonZero(p.nextClientGeneration)),
          ClientId(slot, p.nextClientGeneration))
  }

  function CreateClient(p: Plane): (Plane, ClientId) {
    CreateClientAt(p, 0)
  }

  /** Closes, from slot `slot` on, the flows the client owns. */
  function CloseOwnedFrom(p: Plane, slot: nat, id: ClientId, now: int): Plane
    requires slot <= MAXIMUM_FLOWS
    decreases MAXIMUM_FLOWS - slot
  {
    if slot == MAXIMUM_FLOWS then p
    else
      var next :=
        if p.flows[slot].inUse && p.flows[slot].client == id
        then CloseSlot(p, slot, ClientClosed, now, false) else p;
      CloseOwnedFrom(next, slot + 1, id, now)
  }

  function Anything(): Entry -> bool {
    e => true
  }

  function DestroyClient(p: Plane, id: ClientId, now: int): Plane {
    if !IsClient(p.clients, id) then p
    else
      var closed := CloseOwnedFrom(p, 0, id, now);
      closed.(clients := closed.clients[id.slot := FREE_CLIENT],
              slabs := ReleaseEntries(closed.slabs, closed.clients[id.slot].queue, Anything()))
  }

  // ---------------------------------------------------------------------------------------------
  // Policy

  /** Applies a changed policy to one flow: close what it no longer covers, re-stamp the rest. */
  function ApplyPolicyAt(p: Plane, slot: nat, now: int): Plane
    requires slot < MAXIMUM_FLOWS
  {
    var flow := p.flows[slot];
    if !IsLive(flow) then p
    else if !p.policy.available || flow.peer != p.policy.peer || !Covered(p.policy, flow.remote.address)
    then CloseSlot(p, slot, PolicyInvalidated, now, true)
    else p.(flows := p.flows[slot := flow.(policyGeneration := p.policyGeneration)])
  }

  function ApplyPolicyFrom(p: Plane, slot: nat, now: int): Plane
    requires slot <= MAXIMUM_FLOWS
    decreases MAXIMUM_FLOWS - slot
  {
    if slot == MAXIMUM_FLOWS then p else ApplyPolicyFrom(ApplyPolicyAt(p, slot, now), slot + 1, now)
  }

  function PolicyRecord(generation: U32): CompletionRecord {
    BlankRecord(PolicyChanged, Success, 0).(policyGeneration := generation)
  }

  function AnnouncePolicyFrom(clients: Clients, slot: nat, generation: U32): Clients
    requires slot <= MAXIMUM_CLIENT_CONTEXTS
    decreases MAXIMUM_CLIENT_CONTEXTS - slot
  {
    if slot == MAXIMUM_CLIENT_CONTEXTS then clients
    else
      var next :=
        if !clients[slot].inUse then clients
        else EnqueueControl(clients, ClientId(slot, clients[slot].generation), PolicyRecord(generation));
      AnnouncePolicyFrom(next, slot + 1, generation)
  }

  function RefreshPolicy(p: Plane, input: PolicyInput, now: int): Plane {
    var policy := ResolvePolicy(input);
    if policy == p.policy then p
    else
      var renewed := p.(policy := policy, policyGeneration := p.nextPolicyGeneration,
                        nextPolicyGeneration := NextNonZero(p.nextPolicyGeneration));
      var applied := ApplyPolicyFrom(renewed, 0, now);
      applied.(clients := AnnouncePolicyFrom(applied.clients, 0, applied.policyGeneration))
  }

  // ---------------------------------------------------------------------------------------------
  // Flows

  datatype OpenRequest = OpenRequest(remote: Endpoint, tag: nat)

  datatype Reservation = Reservation(
    status: ProtocolStatus, flow: nat, activation: U32, policyGeneration: U32,
    local: Endpoint, remote: Endpoint, client: ClientId, peer: PeerIdentity, token: nat)
  {
    predicate IsReserved() {
      status == Success && token != 0
    }
  }

  function Refusal(policyGeneration: U32, status: ProtocolStatus): Reservation {
    Reservation(status, 0, 0, policyGeneration, ZERO_ENDPOINT, ZERO_ENDPOINT, NO_CLIENT, NO_PEER, 0)
  }

  function OwnedBy(id: ClientId): Flow -> bool {
    f => IsLive(f) && f.client == id
  }

  /** The first flow slot at or after `from` that is free or closed. */
  function ReusableFlow(flows: Flows, from: nat): (i: nat)
    requires from <= MAXIMUM_FLOWS
    ensures from <= i <= MAXIMUM_FLOWS
    ensures i < MAXIMUM_FLOWS ==> !IsLive(flows[i])
    ensures forall j :: from <= j < i ==> IsLive(flows[j])
    decreases MAXIMUM_FLOWS - from
  {
    if from == MAXIMUM_FLOWS || !IsLive(flows[from]) then from else ReusableFlow(flows, from + 1)
  }

  /** The flow-generation counter skips every value whose low 24 bits are zero. */
  function NextFlowGeneration(next: U32): U32 {
    var following := (next + 1) % 0x1_0000_0000;
    if following % 0x100_0000 == 0 then (following + 1) % 0x1_0000_0000 else following
  }

  datatype Availability = Availability(protocol: bool, staging: bool)

  function Reserve(p: Plane, id: ClientId, request: OpenRequest, now: int, availability: Availability)
    : (Plane, Reservation)
  {
    if !IsClient(p.clients, id) || request.remote.reserved != 0 || request.remote.port == 0
    then (p, Refusal(p.policyGeneration, MalformedInput))
    else if !p.policy.available || p.policy.peer.activation == 0 then (p, Refusal(p.policyGeneration, PeerUnavailable))
    else if !Covered(p.policy, request.remote.address) then (p, Refusal(p.policyGeneration, RouteNotCovered))
    else if !availability.protocol
    then (p, Refusal(p.policyGeneration, if p.policy.leakProtection then TunnelBlockedByPolicy else TransportUnavailable))
    else if Count(p.flows, OwnedBy(id)) >= MAXIMUM_FLOWS_PER_CLIENT then (p, Refusal(p.policyGeneration, FlowQuotaExhausted))
    else
      var slot := ReusableFlow(p.flows, 0);
      if slot == MAXIMUM_FLOWS then (p, Refusal(p.policyGeneration, FlowQuotaExhausted))
      else ReserveAt(p, id, request, now, slot)
  }

  /** The rest of a reservation, once a flow slot was found. */
  function ReserveAt(p: Plane, id: ClientId, request: OpenRequest, now: int, slot: nat): (Plane, Reservation)
    requires slot < MAXIMUM_FLOWS
  {
    var cleared := p.(tombstones := ClearExpired(p.tombstones, now));
    if !HasTombstoneReservation(cleared.tombstones, p.flows) then (cleared, Refusal(p.policyGeneration, ReverseTupleExhausted))
    else
      var (port, nextPort) := AllocatePort(cleared, request.remote, now, PORT_TRIES);
      if port.None? then (cleared.(nextPort := nextPort), Refusal(p.policyGeneration, ReverseTupleExhausted))
      else
        var flow := NewFlow(p, id, request, port.value);
        (cleared.(flows := p.flows[slot := flow], nextPort := nextPort,
                  nextFlowGeneration := NextFlowGeneration(p.nextFlowGeneration)),
         Reserved(slot, flow))
  }

  function NewFlow(p: Plane, id: ClientId, request: OpenRequest, port: U16): Flow {
    FREE_FLOW.(inUse := true, pending := true, client := id, generation := p.nextFlowGeneration % 0x100_0000,
               peer := p.policy.peer, policyGeneration := p.policyGeneration, remote := request.remote,
               source := p.policy.source, port := port, tag := request.tag)
  }

  function Reserved(slot: nat, flow: Flow): Reservation {
    Reservation(Success, Handle(slot, flow), flow.peer.activation, flow.policyGeneration,
                Endpoint(flow.source, flow.port, 0), flow.remote, flow.client, flow.peer, Handle(slot, flow))
  }

  predicate CanCommit(p: Plane, r: Reservation) {
    r.IsReserved() &&
    var slot := FindFlow(p, r.client, r.flow);
    slot.Some? &&
    var flow := p.flows[slot.value];
    flow.pending && !flow.closed && flow.peer == r.peer && SameEndpoint(flow.remote, r.remote) &&
    p.policy.peer == r.peer && p.policyGeneration == r.policyGeneration
  }

  function Commit(p: Plane, r: Reservation): (Plane, bool) {
    if !CanCommit(p, r) then (p, false)
    else
      var slot := FindFlow(p, r.client, r.flow).value;
      (p.(flows := p.flows[slot := p.flows[slot].(pending := false)]), true)
  }

  function Cancel(p: Plane, r: Reservation): Plane {
    if !r.IsReserved() then p
    else
      var slot := FindFlow(p, r.client, r.flow);
      if slot.Some? && p.flows[slot.value].pending then p.(flows := p.flows[slot.value := FREE_FLOW]) else p
  }

  /** Reserve and commit in one call; a reservation that cannot commit is cancelled. */
  function OpenFlow(p: Plane, id: ClientId, request: OpenRequest, now: int, availability: Availability)
    : (Plane, Reservation)
  {
    var (reserved, r) := Reserve(p, id, request, now, availability);
    if !r.IsReserved() then (reserved, r)
    else
      var (committed, ok) := Commit(reserved, r);
      if ok then (committed, r) else (Cancel(reserved, r), r.(status := PeerUnavailable, flow := 0))
  }

  function CloseFlow(p: Plane, id: ClientId, handle: nat, now: int): (Plane, ProtocolStatus) {
    var slot := FindFlow(p, id, handle);
    if slot.None? then (p, StaleHandle)
    else (CloseSlot(p, slot.value, ClientClosed, now, true), Success)
  }

  /** Closes, from slot `slot` on, the committed flows of one peer activation. */
  function InvalidateFrom(p: Plane, slot: nat, peer: PeerIdentity, reason: TerminalReason, now: int): Plane
    requires slot <= MAXIMUM_FLOWS
    decreases MAXIMUM_FLOWS - slot
  {
    if slot == MAXIMUM_FLOWS then p
    else
      var next :=
        if IsCommitted(p.flows[slot]) && p.flows[slot].peer == peer
        then CloseSlot(p, slot, reason, now, true) else p;
      InvalidateFrom(next, slot + 1, peer, reason, now)
  }

  // ---------------------------------------------------------------------------------------------
  // Sending and back-pressure

  datatype Prepared = Prepared(status: ProtocolStatus, peer: PeerIdentity, flow: nat, token: nat)
  {
    predicate IsPrepared() {
      status == Success && token != 0
    }
  }

  function SetWaiter(p: Plane, slot: nat, waiting: bool): Plane
    requires slot < MAXIMUM_FLOWS
  {
    p.(flows := p.flows[slot := p.flows[slot].(writableWaiter := waiting)])
  }

  function PrepareSend(p: Plane, id: ClientId, handle: nat, declaredSize: nat, size: nat, availability: Availability)
    : (Plane, Prepared)
  {
    var refuse := (status: ProtocolStatus) => Prepared(status, NO_PEER, handle, 0);
    if declaredSize != size then (p, refuse(MalformedInput))
    else if size > MAXIMUM_UDP_PAYLOAD_BYTES then (p, refuse(DatagramTooLarge))
    else
      var slot := FindFlow(p, id, handle);
      if slot.None? then (p, refuse(StaleHandle))
      else
        var flow := p.flows[slot.value];
        if flow.closed || flow.pending then (p, refuse(FlowClosed))
        else if !p.policy.available || flow.peer != p.policy.peer then (p, refuse(PeerUnavailable))
        else if !availability.protocol then (p, refuse(TransportUnavailable))
        else if !availability.staging then (SetWaiter(p, slot.value, true), refuse(QueueFull))
        else (p, Prepared(Success, flow.peer, handle, handle))
  }

  function CompleteSend(p: Plane, prepared: Prepared, status: ProtocolStatus): Plane {
    var slot := FindToken(p.flows, prepared.flow);
    if !prepared.IsPrepared() || slot.None? then p
    else if status == QueueFull then SetWaiter(p, slot.value, true)
    else if status == Success then SetWaiter(p, slot.value, false)
    else p
  }

  predicate AwaitsCapacity(flow: Flow, peer: PeerIdentity) {
    IsCommitted(flow) && flow.peer == peer && flow.writableWaiter
  }

  function WritableRecord(slot: nat, flow: Flow): CompletionRecord {
    BlankRecord(Writable, Success, Handle(slot, flow))
      .(activation := flow.peer.activation, policyGeneration := flow.policyGeneration)
  }

  function NotifyCapacityFrom(p: Plane, slot: nat, peer: PeerIdentity): Plane
    requires slot <= MAXIMUM_FLOWS
    decreases MAXIMUM_FLOWS - slot
  {
    if slot == MAXIMUM_FLOWS then p
    else
      var flow := p.flows[slot];
      var next :=
        if !AwaitsCapacity(flow, peer) then p
        else SetWaiter(p, slot, false).(clients := EnqueueControl(p.clients, flow.client, WritableRecord(slot, flow)));
      NotifyCapacityFrom(next, slot + 1, peer)
  }

  // ---------------------------------------------------------------------------------------------
  // Receiving

  datatype Disposition = NotClaimed | Delivered | DroppedMalformed | DroppedUnknown | DroppedStale | DroppedQueueFull

  function DataRecord(slot: nat, flow: Flow, size: nat): CompletionRecord {
    CompletionRecord(InboundDatagram, Success, Handle(slot, flow), flow.remote, 0, size,
                     flow.peer.activation, flow.policyGeneration, Open, NoReason)
  }

  /** A stale datagram: its flow, client, peer or policy moved on. */
  predicate Stale(p: Plane, flow: Flow, peer: PeerIdentity, policyGeneration: U32, remote: Endpoint) {
    flow.closed || flow.pending || !IsClient(p.clients, flow.client) || flow.peer != peer ||
    flow.policyGeneration != policyGeneration || p.policyGeneration != policyGeneration ||
    p.policy.peer != peer || !SameEndpoint(flow.remote, remote)
  }

  function StoreDatagram(p: Plane, slot: nat, slab: nat, payload: seq<Byte>): Plane
    requires slot < MAXIMUM_FLOWS && slab < INBOUND_SLAB_COUNT
    requires p.flows[slot].client.slot < MAXIMUM_CLIENT_CONTEXTS
  {
    var flow := p.flows[slot];
    var c := p.clients[flow.client.slot];
    p.(slabs := p.slabs[slab := Slab(true, payload)],
       flows := p.flows[slot := flow.(occupancy := flow.occupancy + 1)],
       clients := p.clients[flow.client.slot :=
         c.(queue := c.queue + [Entry(DataRecord(slot, flow, |payload|), slab)],
            dataCount := c.dataCount + 1, event := c.event || |c.queue| == 0)])
  }

  /** Storing a datagram where a slab and the client's queue have room for it. */
  function StoreOrDrop(p: Plane, slot: nat, payload: seq<Byte>): (Plane, Disposition)
    requires slot < MAXIMUM_FLOWS && p.flows[slot].client.slot < MAXIMUM_CLIENT_CONTEXTS
  {
    var slab := FreeSlab(p.slabs, 0);
    var c := p.clients[p.flows[slot].client.slot];
    if slab == INBOUND_SLAB_COUNT then (p, DroppedQueueFull)
    else if c.dataCount >= DATA_COMPLETION_CAPACITY || |c.queue| >= COMPLETION_QUEUE_CAPACITY
    then (p.(slabs := p.slabs[slab := FREE_SLAB]), DroppedQueueFull)
    else (StoreDatagram(p, slot, slab, payload), Delivered)
  }

  function Deliver(p: Plane, peer: PeerIdentity, policyGeneration: U32, token: nat, remote: Endpoint, payload: seq<Byte>)
    : (Plane, Disposition)
  {
    if token == 0 || |payload| > MAXIMUM_UDP_PAYLOAD_BYTES then (p, DroppedMalformed)
    else
      var slot := FindToken(p.flows, token);
      if slot.None? then (p, DroppedUnknown)
      else
        var flow := p.flows[slot.value];
        if Stale(p, flow, peer, policyGeneration, remote) then (p, DroppedStale)
        else if flow.occupancy >= MAXIMUM_INBOUND_PER_FLOW then (p, DroppedQueueFull)
        else StoreOrDrop(p, slot.value, payload)
  }

  /** What a drain has copied out so far: records, and the payload bytes packed one after another. */
  datatype Drained = Drained(records: seq<CompletionRecord>, payload: seq<Byte>)

  /** Pops the front entry of a live client's queue; a datagram's slab and occupancy go with it. */
  function PopFront(p: Plane, id: ClientId): Plane
    requires IsClient(p.clients, id) && p.clients[id.slot].queue != []
  {
    var c := p.clients[id.slot];
    var entry := c.queue[0];
    var popped := p.(clients := p.clients[id.slot :=
      c.(queue := c.queue[1..], dataCount := if IsData(entry) && c.dataCount > 0 then c.dataCount - 1 else c.dataCount)]);
    if !IsData(entry) then popped
    else
      var released := popped.(slabs := ReleaseSlab(p.slabs, entry.slab));
      var slot := FindFlow(p, id, entry.record.flow);
      if slot.None? || p.flows[slot.value].occupancy == 0 then released
      else
        var flow := p.flows[slot.value];
        released.(flows := p.flows[slot.value := flow.(occupancy := flow.occupancy - 1)])
  }

  /** The payload of a queue entry; a control entry has none. */
  function PayloadOf(slabs: Slabs, entry: Entry): seq<Byte> {
    if entry.slab < INBOUND_SLAB_COUNT then slabs[entry.slab].bytes else []
  }

  /** The record handed out for an entry whose payload starts at `offset`. */
  function HandedOut(slabs: Slabs, entry: Entry, offset: nat): CompletionRecord {
    if !IsData(entry) then entry.record
    else entry.record.(payloadOffset := offset, payloadSize := |PayloadOf(slabs, entry)|)
  }

  /** What has been handed out after one more entry. */
  function WithEntry(slabs: Slabs, entry: Entry, out: Drained): Drained {
    Drained(out.records + [HandedOut(slabs, entry, |out.payload|)], out.payload + PayloadOf(slabs, entry))
  }

  /** Drains while records fit; stops before an entry whose payload does not. */
  function Drain(p: Plane, id: ClientId, records: nat, capacity: nat, out: Drained): (Plane, Drained)
    requires IsClient(p.clients, id)
    decreases |p.clients[id.slot].queue|
  {
    var queue := p.clients[id.slot].queue;
    if |out.records| >= records || queue == [] || capacity - |out.payload| < |PayloadOf(p.slabs, queue[0])|
    then (p, out)
    else Drain(PopFront(p, id), id, records, capacity, WithEntry(p.slabs, queue[0], out))
  }

  function DrainStatus(p: Plane, id: ClientId, drained: Drained): ProtocolStatus
    requires IsClient(p.clients, id)
  {
    if drained.records != [] then Success
    else if p.clients[id.slot].queue == [] then QueueEmpty
    else OutputBufferTooSmall
  }

  function Receive(p: Plane, id: ClientId, records: nat, capacity: nat): (Plane, ProtocolStatus, Drained)
  {
    if !IsClient(p.clients, id) then (p, StaleHandle, Drained([], []))
    else if records == 0 then (p, OutputBufferTooSmall, Drained([], []))
    else
      var (after, drained) := Drain(p, id, records, capacity, Drained([], []));
      (after, DrainStatus(p, id, drained), drained)
  }

  /** The service drain: the completion event is cleared once the queue is empty. */
  function ServeReceive(p: Plane, id: ClientId, records: nat, capacity: nat): (Plane, ProtocolStatus, Drained)
  {
    var (after, status, drained) := Receive(p, id, records, capacity);
    if IsClient(after.clients, id) && after.clients[id.slot].queue == []
    then (after.(clients := after.clients[id.slot := after.clients[id.slot].(event := false)]), status, drained)
    else (after, status, drained)
  }
}
