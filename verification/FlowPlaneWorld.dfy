/** Whole-run theorems of the flow plane: exactly-once delivery, tuple quarantine, policy coherence. */
module FlowPlaneWorld {
  import opened Counting
  import opened TunnelProtocol
  import opened Routing
  import opened FlowPlane
  import opened FlowPlaneInvariant
  import opened FlowPlaneOperations
  import opened FlowPlaneDelivery
  import opened FlowPlaneHistory
  import opened FlowPlaneRuns

  /** The datagrams reported delivered, handed out and thrown away for the flow now in a slot. */
  datatype FlowLog = FlowLog(delivered: seq<seq<Byte>>, drained: seq<seq<Byte>>, discarded: seq<seq<Byte>>)

  const EMPTY_LOG := FlowLog([], [], [])

  type Logs = s: seq<FlowLog> | |s| == MAXIMUM_FLOWS witness Repeat(EMPTY_LOG, MAXIMUM_FLOWS)

  /** A committed flow's tuple, and when it closed. */
  datatype CloseEvent = CloseEvent(source: Ipv4, port: U16, remote: Endpoint, at: int)

  datatype World = World(plane: Plane, logs: Logs, closes: set<CloseEvent>, clock: int, policyChanges: nat)

  function InitialWorld(clock: int): World {
    World(InitialPlane(), Repeat(EMPTY_LOG, MAXIMUM_FLOWS), {}, clock, 0)
  }

  // ---------------------------------------------------------------------------------------------
  // The observer

  function DeliveredNow(p: Plane, a: Action, s: nat): seq<seq<Byte>>
    requires s < MAXIMUM_FLOWS
  {
    if a.DatagramArrived? && p.flows[s].inUse && a.token == Handle(s, p.flows[s]) &&
       Deliver(p, a.peer, a.policyGeneration, a.token, a.remote, a.payload).1 == Delivered
    then [a.payload] else []
  }

  function DrainedNow(p: Plane, a: Action, s: nat): seq<seq<Byte>>
    requires s < MAXIMUM_FLOWS
  {
    if a.CompletionsReceived? && p.flows[s].inUse
    then
      var out := ServeReceive(p, a.id, a.records, a.capacity).2;
      DrainedFor(out.records, out.payload, Handle(s, p.flows[s]))
    else []
  }

  function NextLog(p: Plane, a: Action, s: nat, log: FlowLog): FlowLog
    requires s < MAXIMUM_FLOWS
  {
    var f, g := p.flows[s], Step(p, a).flows[s];
    if !IsLive(f) && IsLive(g) then EMPTY_LOG
    else FlowLog(log.delivered + DeliveredNow(p, a, s), log.drained + DrainedNow(p, a, s),
                 if IsCommitted(f) && !IsLive(g) then QueuedFor(p, s) else log.discarded)
  }

  function NextLogs(p: Plane, a: Action, logs: Logs): Logs {
    seq(MAXIMUM_FLOWS, s requires 0 <= s < MAXIMUM_FLOWS => NextLog(p, a, s, logs[s]))
  }

  function Event(f: Flow, at: int): CloseEvent {
    CloseEvent(f.source, f.port, f.remote, at)
  }

  function ClosedBetween(p: Plane, q: Plane, at: int): set<CloseEvent> {
    set s | 0 <= s < MAXIMUM_FLOWS && IsCommitted(p.flows[s]) && !IsLive(q.flows[s]) :: Event(p.flows[s], at)
  }

  function Next(w: World, a: Action): World {
    var q := Step(w.plane, a);
    var now := TimeOf(a, w.clock);
    World(q, NextLogs(w.plane, a, w.logs), w.closes + ClosedBetween(w.plane, q, now), now,
          w.policyChanges + Tally(q.policy != w.plane.policy))
  }

  function Run(w: World, actions: seq<Action>): World
    decreases |actions|
  {
    if actions == [] then w else Run(Next(w, actions[0]), actions[1..])
  }

  /** The clock readings of a run do not decrease. */
  predicate ClockSteady(clock: int, actions: seq<Action>)
    decreases |actions|
  {
    actions == [] || (TimeOf(actions[0], clock) >= clock && ClockSteady(TimeOf(actions[0], clock), actions[1..]))
  }

  // ---------------------------------------------------------------------------------------------
  // Logs

  /** Delivered is drained, then still queued, then (once closed) discarded. */
  predicate LogOk(p: Plane, s: nat, log: FlowLog)
    requires s < MAXIMUM_FLOWS
  {
    if IsCommitted(p.flows[s]) then log.delivered == log.drained + QueuedFor(p, s) && log.discarded == []
    else if IsLive(p.flows[s]) then log == EMPTY_LOG
    else log.delivered == log.drained + log.discarded
  }

  /** An action that neither stores nor drains keeps every log right. */
  lemma CalmLog(p: Plane, a: Action, s: nat, log: FlowLog)
    requires s < MAXIMUM_FLOWS && LogOk(p, s, log) && Calm(p, Step(p, a))
    requires !a.DatagramArrived? && !a.CompletionsReceived?
    ensures LogOk(Step(p, a), s, NextLog(p, a, s, log))
  {
    hide Step, QueuedFor, DeliveredNow, DrainedNow;
    assert CalmAt(p, Step(p, a), s);
    Quiet(p, a, s);
    assert log.delivered + [] == log.delivered && log.drained + [] == log.drained;
  }

  /** Every action that only closes is calm. */
  lemma ClosingCalm(p: Plane, a: Action)
    requires Invariant(p)
    requires a.ClientDestroyed? || a.PolicyRefreshed? || a.FlowClosedBy? || a.PeerInvalidated? || a.CapacityFreed?
    ensures Shrinks(p, Step(p, a), TimeOf(a, 0))
  {
    hide Sound, PolicyOk, Shrinks, DestroyClient, RefreshPolicy, InvalidateFrom, NotifyCapacityFrom, CloseSlot,
      Reserve, ServeReceive, Deliver;
    ShrinksReflexive(p, TimeOf(a, 0));
    match a
    case ClientDestroyed(id, now) => DestroyClientShrinks(p, id, now);
    case PolicyRefreshed(input, now) => RefreshPolicyShrinks(p, input, now);
    case FlowClosedBy(id, handle, now) =>
      var slot := FindFlow(p, id, handle);
      if slot.Some? {
        CloseSlotShrinks(p, slot.value, ClientClosed, now, true);
      }
    case PeerInvalidated(peer, reason, now) => InvalidateShrinks(p, 0, peer, reason, now);
    case CapacityFreed(peer) => NotifyCapacityShrinks(p, 0, peer, 0);
  }

  lemma CancelledCalm(p: Plane, r: Reservation)
    ensures Calm(p, Cancel(p, r))
  {
    var q := Cancel(p, r);
    forall s | 0 <= s < MAXIMUM_FLOWS ensures CalmAt(p, q, s) {
    }
  }

  lemma SendingCalm(p: Plane, a: Action)
    requires a.SendPrepared? || a.SendCompleted?
    ensures Calm(p, Step(p, a)) && Step(p, a).tombstones == p.tombstones
  {
    SendingFrame(p, a);
    hide Step;
    var q := Step(p, a);
    forall s | 0 <= s < MAXIMUM_FLOWS ensures CalmAt(p, q, s) {
      WaiterCalm(p, q, s);
    }
  }

  /** Preparing and completing a send changes nothing but a waiter mark. */
  lemma SendingFrame(p: Plane, a: Action)
    requires a.SendPrepared? || a.SendCompleted?
    ensures var q := Step(p, a);
            q.clients == p.clients && q.slabs == p.slabs && q.tombstones == p.tombstones &&
            forall s :: 0 <= s < MAXIMUM_FLOWS ==> q.flows[s] == p.flows[s].(writableWaiter := q.flows[s].writableWaiter)
  {
    hide Reserve, ServeReceive, Deliver, RefreshPolicy, DestroyClient, CloseFlow, Commit, Cancel, InvalidateFrom,
      NotifyCapacityFrom, CreateClientAt;
    if a.SendPrepared? {
      PrepareFrame(p, a.id, a.handle, a.declaredSize, a.size, a.availability);
      hide PrepareSend;
    } else {
      CompleteFrame(p, a.prepared, a.status);
      hide CompleteSend;
    }
  }

  ghost predicate OnlyMarks(p: Plane, q: Plane) {
    q.clients == p.clients && q.slabs == p.slabs && q.tombstones == p.tombstones &&
    forall s :: 0 <= s < MAXIMUM_FLOWS ==> q.flows[s] == p.flows[s].(writableWaiter := q.flows[s].writableWaiter)
  }

  lemma PrepareFrame(p: Plane, id: ClientId, handle: nat, declaredSize: nat, size: nat, availability: Availability)
    ensures OnlyMarks(p, PrepareSend(p, id, handle, declaredSize, size, availability).0)
  {
    hide FindFlow;
  }

  lemma CompleteFrame(p: Plane, prepared: Prepared, status: ProtocolStatus)
    ensures OnlyMarks(p, CompleteSend(p, prepared, status))
  {
    hide FindToken;
  }

  lemma WaiterCalm(p: Plane, q: Plane, s: nat)
    requires s < MAXIMUM_FLOWS && q.clients == p.clients && q.slabs == p.slabs
    requires q.flows[s] == p.flows[s].(writableWaiter := q.flows[s].writableWaiter)
    ensures CalmAt(p, q, s)
  {
    assert Handle(s, q.flows[s]) == Handle(s, p.flows[s]);
    hide Handle;
  }

  /** A new client starts with an empty queue, in a slot no live flow used. */
  lemma {:induction false} OpenedCalm(p: Plane, slot: nat)
    requires Invariant(p) && slot <= MAXIMUM_CLIENT_CONTEXTS
    ensures Calm(p, CreateClientAt(p, slot).0)
    decreases MAXIMUM_CLIENT_CONTEXTS - slot
  {
    if slot < MAXIMUM_CLIENT_CONTEXTS {
      if p.clients[slot].inUse {
        hide Invariant, Calm;
        OpenedCalm(p, slot + 1);
      } else {
        var q := CreateClientAt(p, slot).0;
        assert ClientOk(p.clients[slot]);
        assert DataQueue(q.clients[slot]) == DataQueue(p.clients[slot]);
        assert SameData(p.clients, q.clients);
        hide Invariant, CreateClientAt, DataQueue;
        forall s | 0 <= s < MAXIMUM_FLOWS ensures CalmAt(p, q, s) {
        }
      }
    }
  }

  ghost predicate SameData(a: Clients, b: Clients) {
    forall c :: 0 <= c < MAXIMUM_CLIENT_CONTEXTS ==> DataQueue(b[c]) == DataQueue(a[c])
  }

  lemma CommittedLog(p: Plane, r: Reservation, s: nat, log: FlowLog)
    requires Invariant(p) && s < MAXIMUM_FLOWS && LogOk(p, s, log)
    ensures LogOk(Commit(p, r).0, s, NextLog(p, FlowCommitted(r), s, log))
  {
    hide Invariant, QueuedFor, FindFlow, Commit, Step, DeliveredNow, DrainedNow, NextLog, LogOk;
    Quiet(p, FlowCommitted(r), s);
    CommitStep(p, r);
    if CanCommit(p, r) && FindFlow(p, r.client, r.flow).value == s {
      CommitInvariant(p, r);
      CommittedEmpty(p, r, s);
      StartedLog(p, FlowCommitted(r), s, log);
    } else {
      CommitLeaves(p, r, s);
      assert QueuedFor(p, s) + [] == [] + QueuedFor(p, s);
      SteadyLog(p, FlowCommitted(r), s, log);
    }
  }

  lemma CommitStep(p: Plane, r: Reservation)
    ensures Step(p, FlowCommitted(r)) == Commit(p, r).0
  {
    hide Commit;
  }

  lemma CommittedEmpty(p: Plane, r: Reservation, s: nat)
    requires Invariant(p) && Invariant(Commit(p, r).0) && s < MAXIMUM_FLOWS && CanCommit(p, r)
    requires FindFlow(p, r.client, r.flow).value == s
    ensures var q := Commit(p, r).0;
            IsCommitted(q.flows[s]) && QueuedFor(q, s) == [] && IsLive(p.flows[s]) && !IsCommitted(p.flows[s])
  {
    var q := Commit(p, r).0;
    assert OccupancyOk(q.clients, s, q.flows[s]) && FlowOk(p.clients, p.flows[s]) && FlowOk(q.clients, q.flows[s]);
    hide Invariant, FindFlow, OccupancyOk;
    NothingQueued(q, s);
  }

  lemma CommitLeaves(p: Plane, r: Reservation, s: nat)
    requires s < MAXIMUM_FLOWS && !(CanCommit(p, r) && FindFlow(p, r.client, r.flow).value == s)
    ensures var q := Commit(p, r).0;
            q.flows[s] == p.flows[s] && QueuedFor(q, s) == QueuedFor(p, s)
  {
    hide FindFlow;
  }

  lemma NothingQueued(p: Plane, s: nat)
    requires s < MAXIMUM_FLOWS && IsCommitted(p.flows[s]) && p.flows[s].client.slot < MAXIMUM_CLIENT_CONTEXTS
    requires OccupancyOk(p.clients, s, p.flows[s]) && p.flows[s].occupancy == 0
    ensures QueuedFor(p, s) == []
  {
    FilterMembers(DataQueue(p.clients[p.flows[s].client.slot]), OfFlow(Handle(s, p.flows[s])));
  }

  lemma ReservedLog(p: Plane, a: Action, s: nat, log: FlowLog)
    requires Invariant(p) && s < MAXIMUM_FLOWS && LogOk(p, s, log) && a.FlowReserved?
    ensures LogOk(Step(p, a), s, NextLog(p, a, s, log))
  {
    assert log.delivered + [] == log.delivered && log.drained + [] == log.drained;
    ReserveFrame(p, a.id, a.request, a.now, a.availability, s);
    hide Reserve, Invariant;
    SameQueued(p, Step(p, a), s);
    hide QueuedFor;
  }

  lemma SameQueued(p: Plane, q: Plane, s: nat)
    requires s < MAXIMUM_FLOWS && q.clients == p.clients && q.slabs == p.slabs
    ensures q.flows[s] == p.flows[s] ==> QueuedFor(q, s) == QueuedFor(p, s)
  {
  }

  /** A reservation, granted or not, at most turns a slot that was not live into a pending flow. */
  lemma ReserveFrame(p: Plane, id: ClientId, request: OpenRequest, now: int, availability: Availability, s: nat)
    requires s < MAXIMUM_FLOWS
    ensures var q := Reserve(p, id, request, now, availability).0;
            q.clients == p.clients && q.slabs == p.slabs &&
            (q.flows[s] == p.flows[s] || (!IsLive(p.flows[s]) && IsLive(q.flows[s]) && q.flows[s].pending))
  {
    hide Count, AllocatePort, Covered, ClearExpired;
  }

  lemma ArrivedLog(p: Plane, a: Action, s: nat, log: FlowLog)
    requires Invariant(p) && s < MAXIMUM_FLOWS && LogOk(p, s, log) && a.DatagramArrived?
    ensures LogOk(Step(p, a), s, NextLog(p, a, s, log))
  {
    hide Invariant, Deliver, CanStore, QueuedFor, StoreDatagram, FreeSlab, Step, DeliveredNow, DrainedNow, NextLog, LogOk;
    ArrivalStep(p, a);
    DeliverOutcome(p, a.peer, a.policyGeneration, a.token, a.remote, a.payload);
    if Deliver(p, a.peer, a.policyGeneration, a.token, a.remote, a.payload).1 == Delivered {
      StoredLog(p, a, s, log);
    } else {
      RefusedArrival(p, a, s);
      assert QueuedFor(p, s) + [] == [] + QueuedFor(p, s);
      SteadyLog(p, a, s, log);
    }
  }

  lemma StoredLog(p: Plane, a: Action, s: nat, log: FlowLog)
    requires Invariant(p) && s < MAXIMUM_FLOWS && LogOk(p, s, log) && a.DatagramArrived?
    requires Deliver(p, a.peer, a.policyGeneration, a.token, a.remote, a.payload).1 == Delivered
    requires var slot, slab := a.token % 16, FreeSlab(p.slabs, 0);
             CanStore(p, slot, slab, a.payload) && Handle(slot, p.flows[slot]) == a.token &&
             Step(p, a) == StoreDatagram(p, slot, slab, a.payload)
    ensures LogOk(Step(p, a), s, NextLog(p, a, s, log))
  {
    hide Invariant, Deliver, CanStore, QueuedFor, StoreDatagram, FreeSlab, Handle, Step, DeliveredNow, DrainedNow, NextLog, LogOk;
    var slot, slab := a.token % 16, FreeSlab(p.slabs, 0);
    StoredFlow(p, slot, slab, a.payload, s);
    DeliveredTo(p, a, s);
    if IsCommitted(p.flows[s]) {
      StoreQueued(p, slot, slab, a.payload, s);
      assert [] + QueuedFor(Step(p, a), s) == QueuedFor(Step(p, a), s);
    }
    SteadyLog(p, a, s, log);
  }

  /** A delivery adds the payload to the flow its token names, and drains nothing. */
  lemma DeliveredTo(p: Plane, a: Action, s: nat)
    requires s < MAXIMUM_FLOWS && a.DatagramArrived? && IsCommitted(p.flows[a.token % 16])
    requires Deliver(p, a.peer, a.policyGeneration, a.token, a.remote, a.payload).1 == Delivered
    requires Handle(a.token % 16, p.flows[a.token % 16]) == a.token
    ensures DeliveredNow(p, a, s) == (if s == a.token % 16 then [a.payload] else []) && DrainedNow(p, a, s) == []
  {
    hide Deliver, Handle;
    HandleSlot(s, p.flows[s]);
  }

  /** A flow that stays as live and as committed as it was, and whose queue moves by what the step delivers and drains. */
  lemma SteadyLog(p: Plane, a: Action, s: nat, log: FlowLog)
    requires s < MAXIMUM_FLOWS && LogOk(p, s, log)
    requires var f, g := p.flows[s], Step(p, a).flows[s]; IsLive(f) == IsLive(g) && IsCommitted(f) == IsCommitted(g)
    requires if IsCommitted(p.flows[s])
             then QueuedFor(p, s) + DeliveredNow(p, a, s) == DrainedNow(p, a, s) + QueuedFor(Step(p, a), s)
             else DeliveredNow(p, a, s) == [] && DrainedNow(p, a, s) == []
    ensures LogOk(Step(p, a), s, NextLog(p, a, s, log))
  {
    hide Step, QueuedFor, DeliveredNow, DrainedNow;
    Regroup(log.drained, QueuedFor(p, s), DeliveredNow(p, a, s));
    Regroup(log.drained, DrainedNow(p, a, s), QueuedFor(Step(p, a), s));
    assert log.delivered + [] == log.delivered && log.drained + [] == log.drained;
  }

  lemma Quiet(p: Plane, a: Action, s: nat)
    requires s < MAXIMUM_FLOWS && !a.DatagramArrived? && !a.CompletionsReceived?
    ensures DeliveredNow(p, a, s) == [] && DrainedNow(p, a, s) == []
  {
  }

  lemma RefusedArrival(p: Plane, a: Action, s: nat)
    requires s < MAXIMUM_FLOWS && a.DatagramArrived?
    requires Deliver(p, a.peer, a.policyGeneration, a.token, a.remote, a.payload).1 != Delivered
    ensures DeliveredNow(p, a, s) == [] && DrainedNow(p, a, s) == []
  {
    hide Deliver;
  }

  lemma ArrivalStep(p: Plane, a: Action)
    requires a.DatagramArrived?
    ensures Step(p, a) == Deliver(p, a.peer, a.policyGeneration, a.token, a.remote, a.payload).0
  {
    hide Deliver;
  }

  /** A reservation that has just become a flow starts with nothing. */
  lemma StartedLog(p: Plane, a: Action, s: nat, log: FlowLog)
    requires s < MAXIMUM_FLOWS && LogOk(p, s, log) && DeliveredNow(p, a, s) == [] && DrainedNow(p, a, s) == []
    requires IsLive(p.flows[s]) && !IsCommitted(p.flows[s])
    requires IsCommitted(Step(p, a).flows[s]) && QueuedFor(Step(p, a), s) == []
    ensures LogOk(Step(p, a), s, NextLog(p, a, s, log))
  {
    hide Step, QueuedFor, DeliveredNow, DrainedNow;
  }

  lemma StoredFlow(p: Plane, slot: nat, slab: nat, payload: seq<Byte>, s: nat)
    requires CanStore(p, slot, slab, payload) && s < MAXIMUM_FLOWS
    ensures var f := StoreDatagram(p, slot, slab, payload).flows[s];
            f == p.flows[s].(occupancy := f.occupancy) && IsCommitted(p.flows[slot])
  {
  }

  /** With no datagram of the flow queued, a drain shows none. */
  lemma {:induction false} DrainShowsNone(p: Plane, id: ClientId, records: nat, capacity: nat, out: Drained, handle: nat)
    requires Invariant(p) && IsClient(p.clients, id) && RecordsFit(out.records, |out.payload|)
    requires forall e :: e in p.clients[id.slot].queue && IsData(e) ==> e.record.flow != handle
    ensures var done := Drain(p, id, records, capacity, out).1;
            DrainedFor(done.records, done.payload, handle) == DrainedFor(out.records, out.payload, handle)
    decreases |p.clients[id.slot].queue|
  {
    var queue := p.clients[id.slot].queue;
    if |out.records| < records && queue != [] && capacity - |out.payload| >= |PayloadOf(p.slabs, queue[0])| {
      FrontFits(p, id);
      HandedOutShows(p.slabs, queue[0], out, handle);
      PopInvariant(p, id);
      assert forall e :: e in queue[1..] ==> e in queue;
      assert PopFront(p, id).clients[id.slot].queue == queue[1..];
      DrainShowsNone(PopFront(p, id), id, records, capacity, WithEntry(p.slabs, queue[0], out), handle);
    }
  }

  /** A queued datagram's flow is committed, so a closed or pending flow has none queued anywhere. */
  lemma NoneQueuedElsewhere(p: Plane, c: nat, s: nat)
    requires Sound(p) && c < MAXIMUM_CLIENT_CONTEXTS && s < MAXIMUM_FLOWS && !IsCommitted(p.flows[s])
    ensures forall e :: e in p.clients[c].queue && IsData(e) ==> e.record.flow != Handle(s, p.flows[s])
  {
    HandleSlot(s, p.flows[s]);
    forall e | e in p.clients[c].queue && IsData(e) ensures e.record.flow != Handle(s, p.flows[s]) {
      FilterContains(p.clients[c].queue, e, IsData);
      assert Owned(p.clients, p.flows, c, e);
    }
  }

  lemma {:induction false} DrainKeepsFlows(p: Plane, id: ClientId, records: nat, capacity: nat, out: Drained, s: nat)
    requires Invariant(p) && IsClient(p.clients, id) && s < MAXIMUM_FLOWS
    ensures var q := Drain(p, id, records, capacity, out).0;
            q.flows[s] == p.flows[s].(occupancy := q.flows[s].occupancy) && q.tombstones == p.tombstones &&
            q.policy == p.policy && q.policyGeneration == p.policyGeneration && q.nextPolicyGeneration == p.nextPolicyGeneration
    decreases |p.clients[id.slot].queue|
  {
    var queue := p.clients[id.slot].queue;
    if |out.records| < records && queue != [] && capacity - |out.payload| >= |PayloadOf(p.slabs, queue[0])| {
      PopInvariant(p, id);
      PopKeepsFlow(p, id, s);
      PopKeepsRest(p, id);
      hide Invariant, PopFront, WithEntry;
      DrainKeepsFlows(PopFront(p, id), id, records, capacity, WithEntry(p.slabs, queue[0], out), s);
    }
  }

  lemma PopKeepsRest(p: Plane, id: ClientId)
    requires IsClient(p.clients, id) && p.clients[id.slot].queue != []
    ensures var q := PopFront(p, id);
            q.tombstones == p.tombstones && q.policy == p.policy && q.policyGeneration == p.policyGeneration &&
            q.nextPolicyGeneration == p.nextPolicyGeneration && IsClient(q.clients, id) &&
            |q.clients[id.slot].queue| < |p.clients[id.slot].queue|
  {
    hide FindFlow;
  }

  /** Clearing the completion event is invisible to the flow and its queued datagrams. */
  lemma ServeReceiveFlow(p: Plane, id: ClientId, records: nat, capacity: nat, s: nat)
    requires Invariant(p) && IsClient(p.clients, id) && records > 0 && s < MAXIMUM_FLOWS
    ensures var q := Drain(p, id, records, capacity, Drained([], [])).0;
            var r := ServeReceive(p, id, records, capacity).0;
            QueuedFor(r, s) == QueuedFor(q, s) && r.flows[s] == p.flows[s].(occupancy := r.flows[s].occupancy)
  {
    var q := Drain(p, id, records, capacity, Drained([], [])).0;
    var r := ServeReceive(p, id, records, capacity).0;
    DrainKeepsFlows(p, id, records, capacity, Drained([], []), s);
    SameOwnersQueued(q, r.clients, s);
  }

  /** A drain moves the head of a flow's queue to the reader. */
  lemma ReceiveMoves(p: Plane, a: Action, s: nat)
    requires Invariant(p) && s < MAXIMUM_FLOWS && a.CompletionsReceived? && IsCommitted(p.flows[s])
    ensures QueuedFor(p, s) == DrainedNow(p, a, s) + QueuedFor(Step(p, a), s) && IsCommitted(Step(p, a).flows[s])
  {
    hide Invariant, QueuedFor, Drain, ServeReceive, DrainedFor, Handle;
    if IsClient(p.clients, a.id) && a.records > 0 {
      var h := Handle(s, p.flows[s]);
      var (q, done) := Drain(p, a.id, a.records, a.capacity, Drained([], []));
      ServedDrain(p, a.id, a.records, a.capacity);
      NothingDrained(h);
      assert [] + QueuedFor(p, s) == QueuedFor(p, s);
      DrainConserves(p, a.id, a.records, a.capacity, Drained([], []), s);
      ServeReceiveFlow(p, a.id, a.records, a.capacity, s);
    } else {
      RefusedDrain(p, a.id, a.records, a.capacity, s);
      NothingDrained(Handle(s, p.flows[s]));
      assert [] + QueuedFor(p, s) == QueuedFor(p, s);
    }
  }

  lemma NothingDrained(handle: nat)
    ensures DrainedFor([], [], handle) == [] && RecordsFit([], 0)
  {
  }

  /** The service hands out what the drain collects. */
  lemma ServedDrain(p: Plane, id: ClientId, records: nat, capacity: nat)
    requires IsClient(p.clients, id) && records > 0
    ensures ServeReceive(p, id, records, capacity).2 == Drain(p, id, records, capacity, Drained([], [])).1
  {
    hide Drain;
  }

  lemma RefusedDrain(p: Plane, id: ClientId, records: nat, capacity: nat, s: nat)
    requires s < MAXIMUM_FLOWS && (!IsClient(p.clients, id) || records == 0)
    ensures var (q, _, out) := ServeReceive(p, id, records, capacity);
            out == Drained([], []) && q.flows == p.flows && QueuedFor(q, s) == QueuedFor(p, s)
  {
    SameOwnersQueued(p, ServeReceive(p, id, records, capacity).0.clients, s);
  }

  /** A flow that is not committed has nothing to drain and stays as it is. */
  lemma ReceiveIgnores(p: Plane, a: Action, s: nat)
    requires Invariant(p) && s < MAXIMUM_FLOWS && a.CompletionsReceived? && !IsCommitted(p.flows[s])
    ensures DrainedNow(p, a, s) == []
    ensures !IsCommitted(Step(p, a).flows[s]) && IsLive(Step(p, a).flows[s]) == IsLive(p.flows[s])
  {
    hide Invariant, ServeReceive, Drain, DrainedFor, Handle;
    var h := Handle(s, p.flows[s]);
    NothingDrained(h);
    if IsClient(p.clients, a.id) && a.records > 0 {
      assert Sound(p) by { SoundInvariant(p); }
      NoneQueuedElsewhere(p, a.id.slot, s);
      DrainShowsNone(p, a.id, a.records, a.capacity, Drained([], []), h);
      ServedDrain(p, a.id, a.records, a.capacity);
      ServeReceiveFlow(p, a.id, a.records, a.capacity, s);
    } else {
      RefusedDrain(p, a.id, a.records, a.capacity, s);
    }
  }

  lemma SoundInvariant(p: Plane)
    requires Invariant(p)
    ensures Sound(p)
  {
  }

  lemma ReceivedLog(p: Plane, a: Action, s: nat, log: FlowLog)
    requires Invariant(p) && s < MAXIMUM_FLOWS && LogOk(p, s, log) && a.CompletionsReceived?
    ensures LogOk(Step(p, a), s, NextLog(p, a, s, log))
  {
    assert log.delivered + [] == log.delivered && log.drained + [] == log.drained;
    if IsCommitted(p.flows[s]) {
      ReceiveMoves(p, a, s);
      Regroup(log.drained, DrainedNow(p, a, s), QueuedFor(Step(p, a), s));
    } else {
      ReceiveIgnores(p, a, s);
    }
  }

  lemma StepLog(p: Plane, a: Action, s: nat, log: FlowLog)
    requires Invariant(p) && s < MAXIMUM_FLOWS && LogOk(p, s, log)
    ensures LogOk(Step(p, a), s, NextLog(p, a, s, log))
  {
    match a
    case ClientOpened => OpenedCalm(p, 0); CalmLog(p, a, s, log);
    case FlowReserved(_, _, _, _) => ReservedLog(p, a, s, log);
    case FlowCommitted(r) => CommittedLog(p, r, s, log);
    case FlowCancelled(r) => CancelledCalm(p, r); CalmLog(p, a, s, log);
    case SendPrepared(_, _, _, _, _) => SendingCalm(p, a); CalmLog(p, a, s, log);
    case SendCompleted(_, _) => SendingCalm(p, a); CalmLog(p, a, s, log);
    case DatagramArrived(_, _, _, _, _) => ArrivedLog(p, a, s, log);
    case CompletionsReceived(_, _, _) => ReceivedLog(p, a, s, log);
    case ClientDestroyed(_, _) => ClosingCalm(p, a); CalmLog(p, a, s, log);
    case PolicyRefreshed(_, _) => ClosingCalm(p, a); CalmLog(p, a, s, log);
    case FlowClosedBy(_, _, _) => ClosingCalm(p, a); CalmLog(p, a, s, log);
    case PeerInvalidated(_, _, _) => ClosingCalm(p, a); CalmLog(p, a, s, log);
    case CapacityFreed(_) => ClosingCalm(p, a); CalmLog(p, a, s, log);
  }
}
