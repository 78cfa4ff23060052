/**
 * What every flow-plane operation keeps: slab ownership, queue bounds, live owners, free tombstones,
 * distinct tuples and a coherent policy.
 */
module FlowPlaneInvariant {
  import opened Counting
  import opened Division
  import opened TunnelProtocol
  import opened Routing
  import opened FlowPlane

  /** The datagrams queued for a client, without its control entries. */
  function DataQueue(c: Client): seq<Entry> {
    Filter(c.queue, IsData)
  }

  function OfFlow(handle: nat): Entry -> bool {
    (e: Entry) => e.record.flow == handle
  }

  function NotOfFlow(handle: nat): Entry -> bool {
    (e: Entry) => e.record.flow != handle
  }

  function HasSlab(slab: nat): Entry -> bool {
    (e: Entry) => e.slab == slab
  }

  function HasKey(kind: CompletionType, flow: nat): Entry -> bool {
    (e: Entry) => !IsData(e) && e.record.kind == kind && e.record.flow == flow
  }

  predicate EntryOk(e: Entry) {
    (IsData(e) <==> e.record.kind == InboundDatagram) && (IsData(e) ==> e.slab < INBOUND_SLAB_COUNT)
  }

  /** No two queued control completions share a kind and a flow. */
  ghost predicate DistinctKeys(queue: seq<Entry>) {
    forall kind, flow :: Count(queue, HasKey(kind, flow)) <= 1
  }

  ghost predicate ClientOk(c: Client) {
    (!c.inUse ==> c == FREE_CLIENT) &&
    (c.inUse ==> c.generation != 0) &&
    |c.queue| <= COMPLETION_QUEUE_CAPACITY &&
    c.dataCount == |DataQueue(c)| <= DATA_COMPLETION_CAPACITY &&
    (c.queue != [] ==> c.event) &&
    (forall e :: e in c.queue ==> EntryOk(e)) &&
    DistinctKeys(c.queue)
  }

  ghost predicate ClientsOk(clients: Clients) {
    forall c :: 0 <= c < MAXIMUM_CLIENT_CONTEXTS ==> ClientOk(clients[c])
  }

  predicate FlowOk(clients: Clients, f: Flow) {
    (f.inUse ==> f.client.slot < MAXIMUM_CLIENT_CONTEXTS && f.client.generation != 0 && 0 < f.generation < 0x100_0000) &&
    (IsLive(f) ==> IsClient(clients, f.client) && f.port >= FIRST_PORT) &&
    (f.pending ==> IsLive(f)) &&
    (!IsCommitted(f) ==> f.occupancy == 0) &&
    (!f.inUse ==> f == FREE_FLOW)
  }

  ghost predicate FlowsOk(clients: Clients, flows: Flows) {
    forall s :: 0 <= s < MAXIMUM_FLOWS ==> FlowOk(clients, flows[s])
  }

  /** A queued datagram belongs to a committed flow of the client whose queue holds it. */
  predicate Owned(clients: Clients, flows: Flows, c: nat, e: Entry)
    requires c < MAXIMUM_CLIENT_CONTEXTS
  {
    var s := e.record.flow % 16;
    IsCommitted(flows[s]) && Handle(s, flows[s]) == e.record.flow &&
    flows[s].client == ClientId(c, clients[c].generation)
  }

  ghost predicate OwnersOk(clients: Clients, flows: Flows) {
    forall c: nat, e :: c < MAXIMUM_CLIENT_CONTEXTS && e in DataQueue(clients[c]) ==> Owned(clients, flows, c, e)
  }

  /** Every committed flow's occupancy is the number of its own queued datagrams, at most four. */
  predicate OccupancyOk(clients: Clients, s: nat, f: Flow) {
    IsCommitted(f) && f.client.slot < MAXIMUM_CLIENT_CONTEXTS ==>
      f.occupancy == Count(DataQueue(clients[f.client.slot]), OfFlow(Handle(s, f))) <= MAXIMUM_INBOUND_PER_FLOW
  }

  ghost predicate OccupanciesOk(clients: Clients, flows: Flows) {
    forall s :: 0 <= s < MAXIMUM_FLOWS ==> OccupancyOk(clients, s, flows[s])
  }

  function NamedBy(c: Client, slab: nat): nat {
    Count(DataQueue(c), HasSlab(slab))
  }

  /** How many queued completions, over all clients, name a slab. */
  function Named(clients: Clients, slab: nat): nat {
    NamedBy(clients[0], slab) + NamedBy(clients[1], slab) + NamedBy(clients[2], slab) + NamedBy(clients[3], slab)
  }

  predicate SlabOk(slab: Slab) {
    if slab.inUse then |slab.bytes| <= MAXIMUM_UDP_PAYLOAD_BYTES else slab == FREE_SLAB
  }

  /** Each allocated slab is named once, each free slab never. */
  ghost predicate SlabsOk(clients: Clients, slabs: Slabs) {
    forall s :: 0 <= s < INBOUND_SLAB_COUNT ==> SlabOk(slabs[s]) && Named(clients, s) == Tally(slabs[s].inUse)
  }

  /** Every live flow can still be quarantined. */
  predicate TombstonesOk(flows: Flows, tombstones: Tombstones) {
    Count(flows, IsLive) <= Count(tombstones, IsFreeTombstone)
  }

  predicate SameTuple(a: Flow, b: Flow) {
    a.source == b.source && a.port == b.port && SameEndpoint(a.remote, b.remote)
  }

  ghost predicate TuplesOk(flows: Flows) {
    forall i, j :: 0 <= i < j < MAXIMUM_FLOWS && IsLive(flows[i]) && IsLive(flows[j]) ==> !SameTuple(flows[i], flows[j])
  }

  /** A live flow carries the current peer and generation, and a remote the policy covers. */
  predicate Coherent(f: Flow, policy: Policy, generation: U32) {
    IsLive(f) ==> f.peer == policy.peer && f.policyGeneration == generation && Covered(policy, f.remote.address)
  }

  ghost predicate PolicyOk(flows: Flows, policy: Policy, generation: U32) {
    forall s :: 0 <= s < MAXIMUM_FLOWS ==> Coherent(flows[s], policy, generation)
  }

  predicate CountersOk(p: Plane) {
    p.nextPort >= FIRST_PORT && p.nextClientGeneration != 0 && p.nextPolicyGeneration != 0 &&
    p.policyGeneration != 0 && p.nextFlowGeneration % 0x100_0000 != 0 &&
    p.policy.count <= MAXIMUM_POLICY_ROUTES
  }

  /** Everything except policy coherence, which a refresh restores flow by flow. */
  ghost predicate Sound(p: Plane) {
    CountersOk(p) && ClientsOk(p.clients) && FlowsOk(p.clients, p.flows) && OwnersOk(p.clients, p.flows) &&
    OccupanciesOk(p.clients, p.flows) && SlabsOk(p.clients, p.slabs) && TombstonesOk(p.flows, p.tombstones) &&
    TuplesOk(p.flows)
  }

  ghost predicate Invariant(p: Plane) {
    Sound(p) && PolicyOk(p.flows, p.policy, p.policyGeneration)
  }

  // ---------------------------------------------------------------------------------------------
  // Handles

  /** The low four bits of a handle are its slot. */
  lemma HandleSlot(slot: nat, f: Flow)
    requires slot < 16
    ensures Handle(slot, f) % 16 == slot
  {
    var rest := f.client.generation * 0x1000_0000 + (f.generation % 0x100_0000) * 16 + f.client.slot;
    assert Handle(slot, f) == rest * 16 + slot;
    hide Handle;
    Packed(rest, slot, 16);
  }

  /** The fields of a packed handle, read back by division; `low` is the byte below the generations. */
  lemma UnpackHandle(clientGeneration: nat, generation: nat, low: nat, h: nat)
    requires clientGeneration < 0x1_0000_0000 && generation < 0x100_0000 && low < 0x100
    requires h == clientGeneration * 0x1_0000_0000 + generation * 0x100 + low
    ensures (h / 0x1_0000_0000) % 0x1_0000_0000 == clientGeneration
    ensures (h / 0x100) % 0x100_0000 == generation
    ensures (h / 16) % 4 == (low / 16) % 4 && h % 16 == low % 16
  {
    UnpackClient(clientGeneration, generation * 0x100 + low, h);
    UnpackFlow(clientGeneration, generation, low, h);
    UnpackSlots(clientGeneration * 0x100_0000 + generation, low, h);
  }

  lemma UnpackClient(clientGeneration: nat, rest: nat, h: nat)
    requires clientGeneration < 0x1_0000_0000 && rest < 0x1_0000_0000 && h == clientGeneration * 0x1_0000_0000 + rest
    ensures (h / 0x1_0000_0000) % 0x1_0000_0000 == clientGeneration
  {
    Packed(clientGeneration, rest, 0x1_0000_0000);
    Packed(0, clientGeneration, 0x1_0000_0000);
  }

  lemma UnpackFlow(clientGeneration: nat, generation: nat, low: nat, h: nat)
    requires generation < 0x100_0000 && low < 0x100
    requires h == clientGeneration * 0x1_0000_0000 + generation * 0x100 + low
    ensures (h / 0x100) % 0x100_0000 == generation
  {
    Packed(clientGeneration * 0x100_0000 + generation, low, 0x100);
    Packed(clientGeneration, generation, 0x100_0000);
  }

  lemma UnpackSlots(generations: nat, low: nat, h: nat)
    requires low < 0x100 && h == generations * 0x100 + low
    ensures (h / 16) % 4 == (low / 16) % 4 && h % 16 == low % 16
  {
    SplitLow(generations, low / 16, low % 16, h);
  }

  lemma SplitLow(generations: nat, high: nat, slot: nat, h: nat)
    requires slot < 16 && h == generations * 0x100 + high * 16 + slot
    ensures (h / 16) % 4 == high % 4 && h % 16 == slot
  {
    Packed(generations * 16 + high, slot, 16);
    SkipFours(generations * 4, high / 4, high % 4);
  }

  lemma SkipFours(fours: nat, more: nat, rest: nat)
    requires rest < 4
    ensures (fours * 4 + (more * 4 + rest)) % 4 == rest
  {
    Packed(fours + more, rest, 4);
  }

  /** Encoding then decoding gives back the slot, the generation and the client. */
  lemma HandleRoundTrip(slot: nat, f: Flow)
    requires slot < 16 && f.client.slot < 4 && f.client.generation != 0 && 0 < f.generation < 0x100_0000
    ensures DecodeHandle(Handle(slot, f)) == Some(DecodedHandle(slot, f.generation, f.client))
  {
    UnpackHandle(f.client.generation, f.generation, f.client.slot * 16 + slot, Handle(slot, f));
  }

  /** Decoding is not injective: bits 6 and 7 of a handle are ignored. */
  lemma HandleAliases(slot: nat, f: Flow, alias: nat)
    requires slot < 16 && f.client.slot < 4 && f.client.generation != 0 && 0 < f.generation < 0x100_0000
    requires alias < 4
    ensures DecodeHandle(Handle(slot, f) + alias * 64) == Some(DecodedHandle(slot, f.generation, f.client))
  {
    var low := (alias * 4 + f.client.slot) * 16 + slot;
    Packed(alias * 4 + f.client.slot, slot, 16);
    SkipFours(alias, 0, f.client.slot);
    UnpackHandle(f.client.generation, f.generation, low, Handle(slot, f) + alias * 64);
  }
}
