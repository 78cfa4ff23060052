/** The worker's check of a completion drain, and why the plane's drains always pass it. */
module CompletionValidation {
  import opened TunnelProtocol
  import opened FlowPlane
  import opened FlowPlaneInvariant
  import opened FlowPlaneRuns
  import opened FlowPlaneWorld
  import opened FlowPlaneWholeRuns

  predicate RecordValid(record: CompletionRecord, payloadCapacity: nat) {
    record.kind == InboundDatagram ==>
      record.payloadSize <= MAXIMUM_UDP_PAYLOAD_BYTES && record.payloadOffset <= payloadCapacity &&
      record.payloadSize <= payloadCapacity - record.payloadOffset
  }

  predicate DrainValid(count: nat, recordCapacity: nat, records: seq<CompletionRecord>, payloadCapacity: nat) {
    count <= recordCapacity && count <= |records| &&
    forall i :: 0 <= i < count ==> RecordValid(records[i], payloadCapacity)
  }

  method ValidateTunnelCompletionDrain(
    count: nat, recordCapacity: nat, records: seq<CompletionRecord>, payloadCapacity: nat)
    returns (valid: bool)
    ensures valid <==> DrainValid(count, recordCapacity, records, payloadCapacity)
  {
    if count > recordCapacity || count > |records| {
      return false;
    }
    for i := 0 to count
      invariant forall j :: 0 <= j < i ==> RecordValid(records[j], payloadCapacity)
    {
      var record := records[i];
      if record.kind == InboundDatagram &&
         (record.payloadSize > MAXIMUM_UDP_PAYLOAD_BYTES || record.payloadOffset > payloadCapacity ||
          record.payloadSize > payloadCapacity - record.payloadOffset) {
        return false;
      }
    }
    return true;
  }

  /** In every reachable state, whatever a client drains passes the worker's check. */
  lemma DrainsPassValidation(clock: int, actions: seq<Action>, id: ClientId, records: nat, capacity: nat)
    ensures var drained := ServeReceive(Run(InitialWorld(clock), actions).plane, id, records, capacity).2;
            DrainValid(|drained.records|, records, drained.records, capacity) && |drained.payload| <= capacity
  {
    ReachableWorld(clock, actions);
    var p := Run(InitialWorld(clock), actions).plane;
    assert Invariant(p);
    hide *;
    DrainPasses(p, id, records, capacity);
  }

  lemma DrainPasses(p: Plane, id: ClientId, records: nat, capacity: nat)
    requires Invariant(p)
    ensures var drained := ServeReceive(p, id, records, capacity).2;
            DrainValid(|drained.records|, records, drained.records, capacity) && |drained.payload| <= capacity
  {
    hide Invariant, Drain;
    if IsClient(p.clients, id) && records > 0 {
      DrainFits(p, id, records, capacity, Drained([], []));
      var done := Drain(p, id, records, capacity, Drained([], [])).1;
      forall i | 0 <= i < |done.records| ensures RecordValid(done.records[i], capacity) {
        assert RecordFits(done.records[i], |done.payload|);
      }
    }
  }
}
