/**
 * Whole runs of the flow plane.  A world pairs the plane with a log of what an observer saw; the log is
 * computed from the inputs, the outputs and the visible flow states only, never from the operations'
 * own bookkeeping.
 */
module FlowPlaneRuns {
  import opened TunnelProtocol
  import opened Routing
  import opened FlowPlane
  import opened FlowPlaneInvariant
  import opened FlowPlaneOperations
  import opened FlowPlaneDelivery
  import opened FlowPlaneHistory

  // ---------------------------------------------------------------------------------------------
  // Actions

  datatype Action =
    | ClientOpened
    | ClientDestroyed(id: ClientId, now: int)
    | PolicyRefreshed(input: PolicyInput, now: int)
    | FlowReserved(id: ClientId, request: OpenRequest, now: int, availability: Availability)
    | FlowCommitted(reservation: Reservation)
    | FlowCancelled(reservation: Reservation)
    | FlowClosedBy(id: ClientId, handle: nat, now: int)
    | PeerInvalidated(peer: PeerIdentity, reason: TerminalReason, now: int)
    | SendPrepared(id: ClientId, handle: nat, declaredSize: nat, size: nat, availability: Availability)
    | SendCompleted(prepared: Prepared, status: ProtocolStatus)
    | CapacityFreed(peer: PeerIdentity)
    | DatagramArrived(peer: PeerIdentity, policyGeneration: U32, token: nat, remote: Endpoint, payload: seq<Byte>)
    | CompletionsReceived(id: ClientId, records: nat, capacity: nat)

  function Step(p: Plane, a: Action): Plane {
    match a
    case ClientOpened => CreateClient(p).0
    case ClientDestroyed(id, now) => DestroyClient(p, id, now)
    case PolicyRefreshed(input, now) => RefreshPolicy(p, input, now)
    case FlowReserved(id, request, now, availability) => Reserve(p, id, request, now, availability).0
    case FlowCommitted(r) => Commit(p, r).0
    case FlowCancelled(r) => Cancel(p, r)
    case FlowClosedBy(id, handle, now) => CloseFlow(p, id, handle, now).0
    case PeerInvalidated(peer, reason, now) => InvalidateFrom(p, 0, peer, reason, now)
    case SendPrepared(id, handle, declaredSize, size, availability) =>
      PrepareSend(p, id, handle, declaredSize, size, availability).0
    case SendCompleted(prepared, status) => CompleteSend(p, prepared, status)
    case CapacityFreed(peer) => NotifyCapacityFrom(p, 0, peer)
    case DatagramArrived(peer, policyGeneration, token, remote, payload) =>
      Deliver(p, peer, policyGeneration, token, remote, payload).0
    case CompletionsReceived(id, records, capacity) => ServeReceive(p, id, records, capacity).0
  }

  /** When the action reads the clock, its time. */
  function TimeOf(a: Action, last: int): int {
    match a
    case ClientDestroyed(_, now) => now
    case PolicyRefreshed(_, now) => now
    case FlowReserved(_, _, now, _) => now
    case FlowClosedBy(_, _, now) => now
    case PeerInvalidated(_, _, now) => now
    case _ => last
  }

  lemma StepInvariant(p: Plane, a: Action)
    requires Invariant(p)
    ensures Invariant(Step(p, a))
  {
    hide Invariant, DestroyClient, RefreshPolicy, Reserve, Commit, Cancel, CloseFlow, InvalidateFrom, PrepareSend,
      CompleteSend, NotifyCapacityFrom, Deliver, ServeReceive, CreateClientAt;
    match a
    case ClientOpened => CreateClientInvariant(p, 0);
    case ClientDestroyed(id, now) => DestroyClientInvariant(p, id, now);
    case PolicyRefreshed(input, now) => RefreshPolicyInvariant(p, input, now);
    case FlowReserved(id, request, now, availability) => ReserveInvariant(p, id, request, now, availability);
    case FlowCommitted(r) => CommitInvariant(p, r);
    case FlowCancelled(r) => CancelInvariant(p, r);
    case FlowClosedBy(id, handle, now) => CloseFlowInvariant(p, id, handle, now);
    case PeerInvalidated(peer, reason, now) => InvalidateInvariant(p, 0, peer, reason, now);
    case SendPrepared(id, handle, declaredSize, size, availability) =>
      PrepareSendInvariant(p, id, handle, declaredSize, size, availability);
    case SendCompleted(prepared, status) => CompleteSendInvariant(p, prepared, status);
    case CapacityFreed(peer) => NotifyCapacityInvariant(p, 0, peer);
    case DatagramArrived(peer, policyGeneration, token, remote, payload) =>
      DeliverInvariant(p, peer, policyGeneration, token, remote, payload);
    case CompletionsReceived(id, records, capacity) => ServeReceiveInvariant(p, id, records, capacity);
  }

  // ---------------------------------------------------------------------------------------------
  // What a drain hands out

  function Slice(payload: seq<Byte>, offset: nat, size: nat): seq<Byte> {
    if offset + size <= |payload| then payload[offset..offset + size] else []
  }

  /** The datagrams a reader of the records and the payload buffer sees for one flow, in order. */
  function DrainedFor(records: seq<CompletionRecord>, payload: seq<Byte>, handle: nat): seq<seq<Byte>> {
    if records == [] then []
    else
      var r := records[|records| - 1];
      DrainedFor(records[..|records| - 1], payload, handle) +
      (if r.kind == InboundDatagram && r.flow == handle then [Slice(payload, r.payloadOffset, r.payloadSize)] else [])
  }

  predicate RecordFits(r: CompletionRecord, size: nat) {
    r.kind == InboundDatagram ==>
      r.payloadSize <= MAXIMUM_UDP_PAYLOAD_BYTES && r.payloadOffset + r.payloadSize <= size
  }

  ghost predicate RecordsFit(records: seq<CompletionRecord>, size: nat) {
    forall i :: 0 <= i < |records| ==> RecordFits(records[i], size)
  }

  /** Bytes appended to the buffer do not change what earlier records show. */
  lemma {:induction false} DrainedForExtends(records: seq<CompletionRecord>, payload: seq<Byte>, more: seq<Byte>, handle: nat)
    requires RecordsFit(records, |payload|)
    ensures DrainedFor(records, payload + more, handle) == DrainedFor(records, payload, handle)
  {
    if records != [] {
      var r := records[|records| - 1];
      DrainedForExtends(records[..|records| - 1], payload, more, handle);
      assert RecordFits(r, |payload|);
      if r.kind == InboundDatagram {
        assert Slice(payload + more, r.payloadOffset, r.payloadSize) == Slice(payload, r.payloadOffset, r.payloadSize);
      }
    }
  }

  /** One more record handed out shows exactly one more datagram, if it is one. */
  lemma HandedOutShows(slabs: Slabs, e: Entry, out: Drained, handle: nat)
    requires RecordsFit(out.records, |out.payload|) && EntryOk(e) && |PayloadOf(slabs, e)| <= MAXIMUM_UDP_PAYLOAD_BYTES
    ensures var next := WithEntry(slabs, e, out);
            RecordsFit(next.records, |next.payload|) &&
            DrainedFor(next.records, next.payload, handle) ==
              DrainedFor(out.records, out.payload, handle) +
              (if IsData(e) && e.record.flow == handle then [PayloadOf(slabs, e)] else [])
  {
    var r := HandedOut(slabs, e, |out.payload|);
    var bytes := PayloadOf(slabs, e);
    DrainedForExtends(out.records, out.payload, bytes, handle);
    assert (out.records + [r])[..|out.records|] == out.records;
    if IsData(e) {
      assert Slice(out.payload + bytes, r.payloadOffset, r.payloadSize) == bytes;
    }
  }

  lemma FrontFits(p: Plane, id: ClientId)
    requires Invariant(p) && IsClient(p.clients, id) && p.clients[id.slot].queue != []
    ensures var e := p.clients[id.slot].queue[0];
            EntryOk(e) && |PayloadOf(p.slabs, e)| <= MAXIMUM_UDP_PAYLOAD_BYTES
  {
    var e := p.clients[id.slot].queue[0];
    assert ClientOk(p.clients[id.slot]) && e in p.clients[id.slot].queue && EntryOk(e);
    if e.slab < INBOUND_SLAB_COUNT {
      assert SlabOk(p.slabs[e.slab]);
    }
  }

  /** A drain moves datagrams from a flow's queue to the reader, in order and byte for byte. */
  lemma {:induction false} DrainConserves(p: Plane, id: ClientId, records: nat, capacity: nat, out: Drained, s: nat)
    requires Invariant(p) && IsClient(p.clients, id) && s < MAXIMUM_FLOWS && IsCommitted(p.flows[s])
    requires RecordsFit(out.records, |out.payload|)
    ensures var (q, done) := Drain(p, id, records, capacity, out);
            var h := Handle(s, p.flows[s]);
            IsCommitted(q.flows[s]) && Handle(s, q.flows[s]) == h &&
            DrainedFor(out.records, out.payload, h) + QueuedFor(p, s) ==
              DrainedFor(done.records, done.payload, h) + QueuedFor(q, s)
    decreases |p.clients[id.slot].queue|
  {
    var queue := p.clients[id.slot].queue;
    if |out.records| < records && queue != [] && capacity - |out.payload| >= |PayloadOf(p.slabs, queue[0])| {
      PopInvariant(p, id);
      DrainOneConserves(p, id, out, s);
      hide Invariant, QueuedFor, DrainedFor, Handle, WithEntry;
      DrainConserves(PopFront(p, id), id, records, capacity, WithEntry(p.slabs, queue[0], out), s);
    }
  }

  lemma DrainOneConserves(p: Plane, id: ClientId, out: Drained, s: nat)
    requires Invariant(p) && IsClient(p.clients, id) && s < MAXIMUM_FLOWS && IsCommitted(p.flows[s])
    requires p.clients[id.slot].queue != [] && RecordsFit(out.records, |out.payload|)
    ensures var next := WithEntry(p.slabs, p.clients[id.slot].queue[0], out);
            var q := PopFront(p, id);
            var h := Handle(s, p.flows[s]);
            RecordsFit(next.records, |next.payload|) && IsCommitted(q.flows[s]) && Handle(s, q.flows[s]) == h &&
            DrainedFor(out.records, out.payload, h) + QueuedFor(p, s) ==
              DrainedFor(next.records, next.payload, h) + QueuedFor(q, s)
  {
    var h := Handle(s, p.flows[s]);
    var e := p.clients[id.slot].queue[0];
    var taken := if IsData(e) && e.record.flow == h then [PayloadOf(p.slabs, e)] else [];
    PopKeepsFlow(p, id, s);
    assert QueuedFor(p, s) == taken + QueuedFor(PopFront(p, id), s) by {
      PopQueued(p, id, s);
    }
    FrontFits(p, id);
    HandedOutShows(p.slabs, e, out, h);
    Regroup(DrainedFor(out.records, out.payload, h), taken, QueuedFor(PopFront(p, id), s));
  }

  lemma Regroup<T>(a: seq<T>, b: seq<T>, c: seq<T>)
    ensures a + (b + c) == (a + b) + c
  {
  }

  lemma PopKeepsFlow(p: Plane, id: ClientId, s: nat)
    requires IsClient(p.clients, id) && p.clients[id.slot].queue != [] && s < MAXIMUM_FLOWS
    ensures PopFront(p, id).flows[s] == p.flows[s].(occupancy := PopFront(p, id).flows[s].occupancy)
    ensures Handle(s, PopFront(p, id).flows[s]) == Handle(s, p.flows[s])
  {
  }

  /** Whatever is handed out fits the caller's buffers. */
  lemma {:induction false} DrainFits(p: Plane, id: ClientId, records: nat, capacity: nat, out: Drained)
    requires Invariant(p) && IsClient(p.clients, id)
    requires RecordsFit(out.records, |out.payload|) && |out.records| <= records && |out.payload| <= capacity
    ensures var (q, done) := Drain(p, id, records, capacity, out);
            RecordsFit(done.records, |done.payload|) && |done.records| <= records && |done.payload| <= capacity
    decreases |p.clients[id.slot].queue|
  {
    var queue := p.clients[id.slot].queue;
    if |out.records| < records && queue != [] && capacity - |out.payload| >= |PayloadOf(p.slabs, queue[0])| {
      var next := WithEntry(p.slabs, queue[0], out);
      FrontFits(p, id);
      HandedOutShows(p.slabs, queue[0], out, 0);
      PopInvariant(p, id);
      DrainFits(PopFront(p, id), id, records, capacity, next);
    }
  }
}
