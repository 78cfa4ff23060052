/** Every run, from the initial plane on: invariants, deliveries, quarantine and policy generations. */
module FlowPlaneWholeRuns {
  import opened Counting
  import opened TunnelProtocol
  import opened Routing
  import opened FlowPlane
  import opened FlowPlaneInvariant
  import opened FlowPlaneQueues
  import opened FlowPlaneOperations
  import opened FlowPlaneDelivery
  import opened FlowPlaneHistory
  import opened FlowPlaneTheorems
  import opened FlowPlaneRuns
  import opened FlowPlaneWorld

  // ---------------------------------------------------------------------------------------------
  // Tombstones

  /** Every action keeps the unexpired tombstones and records the tuples it closes. */
  lemma StepRecords(p: Plane, a: Action, last: int)
    requires Invariant(p)
    ensures Recorded(p, Step(p, a), TimeOf(a, last))
  {
    hide Invariant, Calm, Reserve, ServeReceive, Deliver, CreateClientAt, InvalidateFrom, NotifyCapacityFrom, RefreshPolicy,
      DestroyClient, CloseFlow, PrepareSend, CompleteSend;
    match a
    case ClientDestroyed(_, _) => ClosingCalm(p, a);
    case PolicyRefreshed(_, _) => ClosingCalm(p, a);
    case FlowClosedBy(_, _, _) => ClosingCalm(p, a);
    case PeerInvalidated(_, _, _) => ClosingCalm(p, a);
    case CapacityFreed(peer) => NotifyCapacityShrinks(p, 0, peer, last);
    case ClientOpened => CreateKeepsRest(p, 0);
    case FlowReserved(_, _, _, _) => ReserveRecords(p, a);
    case FlowCommitted(_) =>
    case FlowCancelled(_) =>
    case SendPrepared(_, _, _, _, _) => SendingKeepsLive(p, a);
    case SendCompleted(_, _) => SendingKeepsLive(p, a);
    case DatagramArrived(_, _, _, _, _) => DeliverKeepsRest(p, a.peer, a.policyGeneration, a.token, a.remote, a.payload);
    case CompletionsReceived(_, _, _) => ReceiveKeepsLive(p, a);
  }

  lemma DeliverKeepsRest(p: Plane, peer: PeerIdentity, policyGeneration: U32, token: nat, remote: Endpoint, payload: seq<Byte>)
    requires Invariant(p)
    ensures var q := Deliver(p, peer, policyGeneration, token, remote, payload).0;
            q.tombstones == p.tombstones && SamePolicy(p, q) &&
            forall s :: 0 <= s < MAXIMUM_FLOWS ==> IsLive(q.flows[s]) == IsLive(p.flows[s])
  {
    DeliverOutcome(p, peer, policyGeneration, token, remote, payload);
    hide Invariant, Deliver, Handle;
  }

  lemma {:induction false} CreateKeepsRest(p: Plane, slot: nat)
    requires slot <= MAXIMUM_CLIENT_CONTEXTS
    ensures var q := CreateClientAt(p, slot).0;
            q.flows == p.flows && q.tombstones == p.tombstones && SamePolicy(p, q)
    decreases MAXIMUM_CLIENT_CONTEXTS - slot
  {
    if slot < MAXIMUM_CLIENT_CONTEXTS && p.clients[slot].inUse {
      CreateKeepsRest(p, slot + 1);
    }
  }

  lemma SendingKeepsLive(p: Plane, a: Action)
    requires a.SendPrepared? || a.SendCompleted?
    ensures Step(p, a).tombstones == p.tombstones
    ensures forall s :: 0 <= s < MAXIMUM_FLOWS ==> IsLive(Step(p, a).flows[s]) == IsLive(p.flows[s])
  {
  }

  lemma ReceiveKeepsLive(p: Plane, a: Action)
    requires Invariant(p) && a.CompletionsReceived?
    ensures Step(p, a).tombstones == p.tombstones && SamePolicy(p, Step(p, a))
    ensures forall s :: 0 <= s < MAXIMUM_FLOWS ==> IsLive(Step(p, a).flows[s]) == IsLive(p.flows[s])
  {
    hide Invariant, ServeReceive, Drain;
    if IsClient(p.clients, a.id) && a.records > 0 {
      ServeReceiveRest(p, a.id, a.records, a.capacity);
      forall s | 0 <= s < MAXIMUM_FLOWS ensures IsLive(Step(p, a).flows[s]) == IsLive(p.flows[s]) {
        ServeReceiveFlow(p, a.id, a.records, a.capacity, s);
      }
    } else {
      RefusedReceive(p, a.id, a.records, a.capacity);
    }
  }

  lemma ServeReceiveRest(p: Plane, id: ClientId, records: nat, capacity: nat)
    requires Invariant(p) && IsClient(p.clients, id) && records > 0
    ensures var q := ServeReceive(p, id, records, capacity).0;
            q.tombstones == p.tombstones && SamePolicy(p, q)
  {
    DrainKeepsFlows(p, id, records, capacity, Drained([], []), 0);
    hide Drain, Invariant;
  }

  lemma RefusedReceive(p: Plane, id: ClientId, records: nat, capacity: nat)
    requires !IsClient(p.clients, id) || records == 0
    ensures var q := ServeReceive(p, id, records, capacity).0;
            q.tombstones == p.tombstones && SamePolicy(p, q) && q.flows == p.flows
  {
  }

  lemma ReserveRecords(p: Plane, a: Action)
    requires Invariant(p) && a.FlowReserved?
    ensures Recorded(p, Step(p, a), a.now) && SamePolicy(p, Step(p, a))
  {
    ReserveRest(p, a.id, a.request, a.now, a.availability);
    hide Reserve;
    ExpireKeeps(p, Step(p, a), a.now);
  }

  /** A reservation, granted or not, at most expires tombstones and fills a slot that was not live. */
  lemma ReserveRest(p: Plane, id: ClientId, request: OpenRequest, now: int, availability: Availability)
    requires Invariant(p)
    ensures var q := Reserve(p, id, request, now, availability).0;
            (q.tombstones == p.tombstones || q.tombstones == ClearExpired(p.tombstones, now)) && SamePolicy(p, q) &&
            forall s :: 0 <= s < MAXIMUM_FLOWS && IsLive(p.flows[s]) ==> q.flows[s] == p.flows[s]
  {
    hide Count, AllocatePort, Covered;
  }

  lemma ExpireKeeps(p: Plane, q: Plane, now: int)
    requires q.tombstones == p.tombstones || q.tombstones == ClearExpired(p.tombstones, now)
    requires forall s :: 0 <= s < MAXIMUM_FLOWS && IsLive(p.flows[s]) ==> q.flows[s] == p.flows[s]
    ensures Recorded(p, q, now)
  {
    forall t | t in p.tombstones && t.occupied && t.expiresAt > now ensures t in q.tombstones {
      var k :| 0 <= k < TOMBSTONE_CAPACITY && p.tombstones[k] == t;
      assert ClearExpired(p.tombstones, now)[k] == t;
    }
  }

  ghost predicate ClosesOk(tombstones: Tombstones, closes: set<CloseEvent>, clock: int) {
    forall e :: e in closes ==>
      e.at + QUARANTINE_NS <= clock || Tombstone(true, e.source, e.port, e.remote, e.at + QUARANTINE_NS) in tombstones
  }

  lemma StepCloses(p: Plane, a: Action, closes: set<CloseEvent>, clock: int)
    requires Invariant(p) && ClosesOk(p.tombstones, closes, clock) && TimeOf(a, clock) >= clock
    ensures var q := Step(p, a);
            var now := TimeOf(a, clock);
            ClosesOk(q.tombstones, closes + ClosedBetween(p, q, now), now)
  {
    StepRecords(p, a, clock);
    RecordedCloses(p, Step(p, a), closes, clock, TimeOf(a, clock));
  }

  lemma RecordedCloses(p: Plane, q: Plane, closes: set<CloseEvent>, clock: int, now: int)
    requires Recorded(p, q, now) && ClosesOk(p.tombstones, closes, clock) && now >= clock
    ensures ClosesOk(q.tombstones, closes + ClosedBetween(p, q, now), now)
  {
  }

  // ---------------------------------------------------------------------------------------------
  // Policy generations

  predicate SamePolicy(p: Plane, q: Plane) {
    q.policy == p.policy && q.policyGeneration == p.policyGeneration && q.nextPolicyGeneration == p.nextPolicyGeneration
  }

  lemma CloseSlotSamePolicy(p: Plane, slot: nat, reason: TerminalReason, now: int, notify: bool)
    requires slot < MAXIMUM_FLOWS
    ensures SamePolicy(p, CloseSlot(p, slot, reason, now, notify))
  {
  }

  lemma {:induction false} CloseOwnedSamePolicy(p: Plane, slot: nat, id: ClientId, now: int)
    requires slot <= MAXIMUM_FLOWS
    ensures SamePolicy(p, CloseOwnedFrom(p, slot, id, now))
    decreases MAXIMUM_FLOWS - slot
  {
    hide CloseSlot;
    if slot < MAXIMUM_FLOWS {
      CloseSlotSamePolicy(p, slot, ClientClosed, now, false);
      CloseOwnedSamePolicy(if p.flows[slot].inUse && p.flows[slot].client == id
                           then CloseSlot(p, slot, ClientClosed, now, false) else p, slot + 1, id, now);
    }
  }

  lemma {:induction false} InvalidateSamePolicy(p: Plane, slot: nat, peer: PeerIdentity, reason: TerminalReason, now: int)
    requires slot <= MAXIMUM_FLOWS
    ensures SamePolicy(p, InvalidateFrom(p, slot, peer, reason, now))
    decreases MAXIMUM_FLOWS - slot
  {
    hide CloseSlot;
    if slot < MAXIMUM_FLOWS {
      CloseSlotSamePolicy(p, slot, reason, now, true);
      InvalidateSamePolicy(if IsCommitted(p.flows[slot]) && p.flows[slot].peer == peer
                           then CloseSlot(p, slot, reason, now, true) else p, slot + 1, peer, reason, now);
    }
  }

  lemma {:induction false} NotifySamePolicy(p: Plane, slot: nat, peer: PeerIdentity)
    requires slot <= MAXIMUM_FLOWS
    ensures SamePolicy(p, NotifyCapacityFrom(p, slot, peer))
    decreases MAXIMUM_FLOWS - slot
  {
    if slot < MAXIMUM_FLOWS {
      var f := p.flows[slot];
      NotifySamePolicy(
        if !AwaitsCapacity(f, peer) then p
        else SetWaiter(p, slot, false).(clients := EnqueueControl(p.clients, f.client, WritableRecord(slot, f))),
        slot + 1, peer);
    }
  }

  lemma {:induction false} ApplySamePolicy(p: Plane, slot: nat, now: int)
    requires slot <= MAXIMUM_FLOWS
    ensures SamePolicy(p, ApplyPolicyFrom(p, slot, now))
    decreases MAXIMUM_FLOWS - slot
  {
    if slot < MAXIMUM_FLOWS {
      ApplySamePolicy(ApplyPolicyAt(p, slot, now), slot + 1, now);
    }
  }

  /** Only a refresh to a different policy moves the generation, and then by one step. */
  lemma StepPolicy(p: Plane, a: Action)
    requires Invariant(p)
    ensures var q := Step(p, a);
            if q.policy == p.policy then SamePolicy(p, q)
            else q.policyGeneration == p.nextPolicyGeneration && q.nextPolicyGeneration == NextNonZero(p.nextPolicyGeneration)
  {
    hide Invariant, Reserve, ServeReceive, Deliver, CreateClientAt, InvalidateFrom, NotifyCapacityFrom, RefreshPolicy,
      CloseOwnedFrom, StoreDatagram;
    match a
    case ClientDestroyed(id, now) => CloseOwnedSamePolicy(p, 0, id, now);
    case PolicyRefreshed(input, now) => RefreshStepsPolicy(p, input, now);
    case FlowClosedBy(_, _, _) =>
    case PeerInvalidated(peer, reason, now) => InvalidateSamePolicy(p, 0, peer, reason, now);
    case CapacityFreed(peer) => NotifySamePolicy(p, 0, peer);
    case ClientOpened => CreateKeepsRest(p, 0);
    case FlowReserved(_, _, _, _) => ReserveRecords(p, a);
    case FlowCommitted(_) =>
    case FlowCancelled(_) =>
    case SendPrepared(_, _, _, _, _) =>
    case SendCompleted(_, _) =>
    case DatagramArrived(_, _, _, _, _) => DeliverKeepsRest(p, a.peer, a.policyGeneration, a.token, a.remote, a.payload);
    case CompletionsReceived(_, _, _) => ReceiveKeepsLive(p, a);
  }

  lemma RefreshStepsPolicy(p: Plane, input: PolicyInput, now: int)
    ensures var q := RefreshPolicy(p, input, now);
            if q.policy == p.policy then SamePolicy(p, q)
            else q.policyGeneration == p.nextPolicyGeneration && q.nextPolicyGeneration == NextNonZero(p.nextPolicyGeneration)
  {
    var renewed := p.(policy := ResolvePolicy(input), policyGeneration := p.nextPolicyGeneration,
                      nextPolicyGeneration := NextNonZero(p.nextPolicyGeneration));
    ApplySamePolicy(renewed, 0, now);
  }

  /** How many different generations there are before the counter wraps. */
  const GENERATION_PERIOD: nat := 0xFFFF_FFFF

  predicate GenerationsOk(p: Plane, changes: nat) {
    p.policyGeneration == 1 + changes % GENERATION_PERIOD &&
    p.nextPolicyGeneration == 1 + (changes + 1) % GENERATION_PERIOD
  }

  lemma StepGenerations(p: Plane, a: Action, changes: nat)
    requires Invariant(p) && GenerationsOk(p, changes)
    ensures GenerationsOk(Step(p, a), changes + Tally(Step(p, a).policy != p.policy))
  {
    StepPolicy(p, a);
    NextGeneration(changes);
  }

  lemma NextGeneration(changes: nat)
    ensures NextNonZero(1 + (changes + 1) % GENERATION_PERIOD) == 1 + (changes + 2) % GENERATION_PERIOD
  {
  }

  // ---------------------------------------------------------------------------------------------
  // Worlds

  ghost predicate LogsOk(p: Plane, logs: Logs) {
    forall s :: 0 <= s < MAXIMUM_FLOWS ==> LogOk(p, s, logs[s])
  }

  /** What holds whatever the clock reads. */
  ghost predicate WorldOk(w: World) {
    Invariant(w.plane) && LogsOk(w.plane, w.logs) && GenerationsOk(w.plane, w.policyChanges)
  }

  lemma StepWorld(w: World, a: Action)
    requires WorldOk(w)
    ensures WorldOk(Next(w, a))
  {
    hide Step;
    StepInvariant(w.plane, a);
    forall s | 0 <= s < MAXIMUM_FLOWS ensures LogOk(Step(w.plane, a), s, NextLog(w.plane, a, s, w.logs[s])) {
      StepLog(w.plane, a, s, w.logs[s]);
    }
    StepGenerations(w.plane, a, w.policyChanges);
  }

  lemma {:induction false} RunWorld(w: World, actions: seq<Action>)
    requires WorldOk(w)
    ensures WorldOk(Run(w, actions))
    decreases |actions|
  {
    hide WorldOk;
    if actions != [] {
      StepWorld(w, actions[0]);
      RunWorld(Next(w, actions[0]), actions[1..]);
    }
  }

  /** With a clock that does not go back, every close of the last minute is still on record. */
  lemma {:induction false} RunCloses(w: World, actions: seq<Action>)
    requires WorldOk(w) && ClosesOk(w.plane.tombstones, w.closes, w.clock) && ClockSteady(w.clock, actions)
    ensures var v := Run(w, actions); ClosesOk(v.plane.tombstones, v.closes, v.clock)
    decreases |actions|
  {
    if actions != [] {
      StepCloses(w.plane, actions[0], w.closes, w.clock);
      StepWorld(w, actions[0]);
      hide WorldOk, ClosesOk, Step;
      RunCloses(Next(w, actions[0]), actions[1..]);
    }
  }

  /** Every run from the initial plane, whatever its actions, keeps the whole-run invariant. */
  lemma ReachableWorld(clock: int, actions: seq<Action>)
    ensures WorldOk(Run(InitialWorld(clock), actions))
  {
    InitialWorldOk(clock);
    RunWorld(InitialWorld(clock), actions);
  }

  lemma InitialWorldOk(clock: int)
    ensures WorldOk(InitialWorld(clock))
  {
    InitialInvariant();
    hide Invariant, InitialPlane;
    var w := InitialWorld(clock);
    forall s | 0 <= s < MAXIMUM_FLOWS ensures LogOk(w.plane, s, w.logs[s]) {
      FreeInitially(s);
      assert w.logs[s] == EMPTY_LOG;
    }
    FirstGenerations();
  }

  lemma FreeInitially(s: nat)
    requires s < MAXIMUM_FLOWS
    ensures InitialPlane().flows[s] == FREE_FLOW
  {
  }

  lemma FirstGenerations()
    ensures GenerationsOk(InitialPlane(), 0)
  {
  }

  // ---------------------------------------------------------------------------------------------
  // Results

  /**
   * Exactly-once, in-order delivery: at any point of any run, what was drained for the flow in a slot
   * is a prefix of what was reported delivered for it; the rest is still queued while the flow is open
   * and was discarded when it closed.
   */
  lemma DeliveryInOrder(clock: int, actions: seq<Action>, s: nat)
    requires s < MAXIMUM_FLOWS
    ensures var w := Run(InitialWorld(clock), actions);
            w.logs[s].drained <= w.logs[s].delivered &&
            (IsCommitted(w.plane.flows[s]) ==> w.logs[s].delivered == w.logs[s].drained + QueuedFor(w.plane, s)) &&
            (!IsLive(w.plane.flows[s]) ==> w.logs[s].delivered == w.logs[s].drained + w.logs[s].discarded)
  {
    ReachableWorld(clock, actions);
    var w := Run(InitialWorld(clock), actions);
    assert LogOk(w.plane, s, w.logs[s]);
  }

  /** No tuple is handed out again within a minute of the close of a flow that used it. */
  lemma TupleQuarantined(clock: int, actions: seq<Action>, reserve: Action, e: CloseEvent)
    requires reserve.FlowReserved? && ClockSteady(clock, actions)
    requires var w := Run(InitialWorld(clock), actions);
             reserve.now >= w.clock && e in w.closes &&
             var r := Reserve(w.plane, reserve.id, reserve.request, reserve.now, reserve.availability).1;
             r.status == Success && r.local.address == e.source && r.local.port == e.port && SameEndpoint(r.remote, e.remote)
    ensures reserve.now >= e.at + QUARANTINE_NS
  {
    ReachableWorld(clock, actions);
    InitialWorldOk(clock);
    RunCloses(InitialWorld(clock), actions);
    hide Run, WorldOk, Reserve, ClosesOk;
    TombstoneBlocks(Run(InitialWorld(clock), actions), reserve, e);
  }

  /** A recorded close blocks the tuple until its minute is over. */
  lemma TombstoneBlocks(w: World, reserve: Action, e: CloseEvent)
    requires WorldOk(w) && ClosesOk(w.plane.tombstones, w.closes, w.clock)
    requires reserve.FlowReserved? && reserve.now >= w.clock && e in w.closes
    requires var r := Reserve(w.plane, reserve.id, reserve.request, reserve.now, reserve.availability).1;
             r.status == Success && r.local.address == e.source && r.local.port == e.port && SameEndpoint(r.remote, e.remote)
    ensures reserve.now >= e.at + QUARANTINE_NS
  {
    hide Invariant, LogsOk, Reserve, Covered, HasTombstoneReservation, TupleTombstoned, TupleInUse, ClearExpired, Handle;
    var slot, port := ReserveGranted(w.plane, reserve.id, reserve.request, reserve.now, reserve.availability);
    BlockedTuple(w.plane.tombstones, Tombstone(true, e.source, e.port, e.remote, e.at + QUARANTINE_NS), reserve.request.remote, reserve.now);
  }

  lemma BlockedTuple(tombstones: Tombstones, t: Tombstone, remote: Endpoint, now: int)
    requires t.occupied && SameEndpoint(remote, t.remote)
    ensures t in tombstones && now < t.expiresAt ==>
            TupleTombstoned(ClearExpired(tombstones, now), t.source, t.port, remote, now)
  {
    if t in tombstones && now < t.expiresAt {
      var k :| 0 <= k < TOMBSTONE_CAPACITY && tombstones[k] == t;
      assert BlocksTuple(ClearExpired(tombstones, now)[k], t.source, t.port, remote, now);
    }
  }

  /**
   * Slab ownership: a slab is allocated exactly when some datagram queued for a live client names it,
   * and then only one does.
   */
  lemma SlabOwnership(clock: int, actions: seq<Action>, slab: nat)
    requires slab < INBOUND_SLAB_COUNT
    ensures var p := Run(InitialWorld(clock), actions).plane;
            (p.slabs[slab].inUse <==> exists c: nat, i: nat :: Names(p.clients, c, i, slab)) &&
            forall c: nat, i: nat, d: nat, j: nat :: Names(p.clients, c, i, slab) && Names(p.clients, d, j, slab) ==>
              c == d && i == j && p.clients[c].inUse
  {
    ReachableWorld(clock, actions);
    OwnedOnce(Run(InitialWorld(clock), actions).plane, slab);
  }

  lemma OwnedOnce(p: Plane, slab: nat)
    requires Invariant(p) && slab < INBOUND_SLAB_COUNT
    ensures p.slabs[slab].inUse <==> exists c: nat, i: nat :: Names(p.clients, c, i, slab)
    ensures forall c: nat, i: nat, d: nat, j: nat :: Names(p.clients, c, i, slab) && Names(p.clients, d, j, slab) ==>
              c == d && i == j && p.clients[c].inUse
  {
    if p.slabs[slab].inUse {
      var c, i := SlabHasOwner(p, slab);
      forall d: nat, j: nat | Names(p.clients, d, j, slab) ensures d == c && j == i {
        NamesUnique(p, slab, c, i, d, j);
      }
    } else {
      forall c: nat, i: nat ensures !Names(p.clients, c, i, slab) {
        FreeSlabUnnamed(p, slab, c, i);
      }
    }
  }

  /** Bounds: seven datagrams per client, four per flow, each counted exactly, none for a closed flow. */
  lemma QueueBounds(clock: int, actions: seq<Action>, c: nat, s: nat)
    requires c < MAXIMUM_CLIENT_CONTEXTS && s < MAXIMUM_FLOWS
    ensures var p := Run(InitialWorld(clock), actions).plane;
            p.clients[c].dataCount == |DataQueue(p.clients[c])| <= 7 &&
            (IsCommitted(p.flows[s]) ==>
               p.flows[s].occupancy == |QueuedFor(p, s)| <= 4 && IsClient(p.clients, p.flows[s].client)) &&
            (!IsCommitted(p.flows[s]) ==> p.flows[s].occupancy == 0)
  {
    ReachableWorld(clock, actions);
    ClientAndFlowBounds(Run(InitialWorld(clock), actions).plane, c, s);
  }

  lemma ClientAndFlowBounds(p: Plane, c: nat, s: nat)
    requires Invariant(p) && c < MAXIMUM_CLIENT_CONTEXTS && s < MAXIMUM_FLOWS
    ensures p.clients[c].dataCount == |DataQueue(p.clients[c])| <= 7
    ensures IsCommitted(p.flows[s]) ==>
              p.flows[s].occupancy == |QueuedFor(p, s)| <= 4 && IsClient(p.clients, p.flows[s].client)
    ensures !IsCommitted(p.flows[s]) ==> p.flows[s].occupancy == 0
  {
    var f := p.flows[s];
    assert ClientOk(p.clients[c]) && FlowOk(p.clients, f) && OccupancyOk(p.clients, s, f);
    if IsCommitted(f) {
      var data := DataQueue(p.clients[f.client.slot]);
      FilterMembers(data, OfFlow(Handle(s, f)));
      PayloadsLength(p.slabs, Filter(data, OfFlow(Handle(s, f))));
    }
  }

  lemma {:induction false} PayloadsLength(slabs: Slabs, queue: seq<Entry>)
    ensures |Payloads(slabs, queue)| == |queue|
  {
    if queue != [] {
      PayloadsLength(slabs, queue[1..]);
    }
  }

  /** Two live flows never share a tuple, in any reachable plane. */
  lemma LiveTuplesDistinct(clock: int, actions: seq<Action>, i: nat, j: nat)
    requires i < MAXIMUM_FLOWS && j < MAXIMUM_FLOWS && i != j
    ensures var p := Run(InitialWorld(clock), actions).plane;
            IsLive(p.flows[i]) && IsLive(p.flows[j]) ==> !SameTuple(p.flows[i], p.flows[j])
  {
    ReachableWorld(clock, actions);
  }

  /** Every live flow, pending or committed, carries the current peer and generation and a covered remote. */
  lemma PolicyCoherent(clock: int, actions: seq<Action>, s: nat)
    requires s < MAXIMUM_FLOWS
    ensures var p := Run(InitialWorld(clock), actions).plane;
            IsLive(p.flows[s]) ==>
              p.flows[s].peer == p.policy.peer && p.flows[s].policyGeneration == p.policyGeneration &&
              Covered(p.policy, p.flows[s].remote.address)
  {
    ReachableWorld(clock, actions);
    var p := Run(InitialWorld(clock), actions).plane;
    hide Run, Sound;
    assert Coherent(p.flows[s], p.policy, p.policyGeneration);
  }

  /** Free tombstones never fall below live flows, so closing a committed flow always records its tuple. */
  lemma CloseAlwaysRecorded(clock: int, actions: seq<Action>, slot: nat, reason: TerminalReason, now: int, notify: bool)
    requires slot < MAXIMUM_FLOWS
    ensures var p := Run(InitialWorld(clock), actions).plane;
            Count(p.flows, IsLive) <= Count(p.tombstones, IsFreeTombstone) &&
            (IsCommitted(p.flows[slot]) ==>
               TombstoneOf(p.flows[slot], now) in CloseSlot(p, slot, reason, now, notify).tombstones)
  {
    ReachableWorld(clock, actions);
    var p := Run(InitialWorld(clock), actions).plane;
    assert Sound(p);
    hide Run, CloseSlot, Sound;
    RecordsClose(p, slot, reason, now, notify);
  }

  lemma RecordsClose(p: Plane, slot: nat, reason: TerminalReason, now: int, notify: bool)
    requires Sound(p) && slot < MAXIMUM_FLOWS
    ensures Count(p.flows, IsLive) <= Count(p.tombstones, IsFreeTombstone)
    ensures IsCommitted(p.flows[slot]) ==> TombstoneOf(p.flows[slot], now) in CloseSlot(p, slot, reason, now, notify).tombstones
  {
    assert TombstonesOk(p.flows, p.tombstones);
    CloseSlotQuarantined(p, slot, reason, now, notify);
    CloseSlotEnds(p, slot, reason, now, notify);
    hide Sound, CloseSlot, Count;
  }

  lemma CloseSlotEnds(p: Plane, slot: nat, reason: TerminalReason, now: int, notify: bool)
    requires slot < MAXIMUM_FLOWS
    ensures !IsLive(CloseSlot(p, slot, reason, now, notify).flows[slot])
  {
    hide RemoveFlowCompletions, Quarantine, EnqueueControl;
  }

  /**
   * A pending flow is different: in any run, cancelling its reservation, or closing it for whatever reason,
   * leaves the tombstones alone, and no live flow uses its tuple any more, so only an older
   * tombstone can keep the tuple from being handed out again at once.
   */
  lemma PendingFreesTuple(clock: int, actions: seq<Action>, slot: nat, r: Reservation, reason: TerminalReason, now: int, notify: bool)
    requires slot < MAXIMUM_FLOWS
    requires var p := Run(InitialWorld(clock), actions).plane;
             IsLive(p.flows[slot]) && p.flows[slot].pending && r.IsReserved() && FindFlow(p, r.client, r.flow) == Some(slot)
    ensures var p := Run(InitialWorld(clock), actions).plane;
            var f := p.flows[slot];
            var closed := CloseSlot(p, slot, reason, now, notify);
            TupleInUse(p.flows, f.source, f.port, f.remote) && Cancel(p, r) == closed && closed.tombstones == p.tombstones &&
            !TupleInUse(closed.flows, f.source, f.port, f.remote)
  {
    ReachableWorld(clock, actions);
    var p := Run(InitialWorld(clock), actions).plane;
    assert TuplesOk(p.flows);
    hide Run, Invariant, FindFlow, WorldOk, TuplesOk;
    PendingEnds(p, slot, r, reason, now, notify);
  }

  lemma PendingEnds(p: Plane, slot: nat, r: Reservation, reason: TerminalReason, now: int, notify: bool)
    requires TuplesOk(p.flows) && slot < MAXIMUM_FLOWS && IsLive(p.flows[slot]) && p.flows[slot].pending
    requires r.IsReserved() && FindFlow(p, r.client, r.flow) == Some(slot)
    ensures var f := p.flows[slot];
            var closed := CloseSlot(p, slot, reason, now, notify);
            TupleInUse(p.flows, f.source, f.port, f.remote) && Cancel(p, r) == closed && closed.tombstones == p.tombstones &&
            !TupleInUse(closed.flows, f.source, f.port, f.remote)
  {
    hide FindFlow;
    var f := p.flows[slot];
    assert UsesTuple(p.flows[slot], f.source, f.port, f.remote);
    var flows := p.flows[slot := FREE_FLOW];
    forall i | 0 <= i < MAXIMUM_FLOWS ensures !UsesTuple(flows[i], f.source, f.port, f.remote) {
      if i != slot && IsLive(p.flows[i]) {
        assert !SameTuple(p.flows[if i < slot then i else slot], p.flows[if i < slot then slot else i]);
      }
    }
  }

  /**
   * A control completion is lost, in any run, exactly when the ring is full and none of its entries has the
   * same key; then at least nine others, all with different keys, wait in it.
   */
  lemma ControlLostIff(clock: int, actions: seq<Action>, c: nat, record: CompletionRecord)
    requires c < MAXIMUM_CLIENT_CONTEXTS && record.kind != InboundDatagram
    ensures var queue := Run(InitialWorld(clock), actions).plane.clients[c].queue;
            (Entry(record, NO_SLAB) !in PushControl(queue, record) <==>
               |queue| == COMPLETION_QUEUE_CAPACITY && forall i :: 0 <= i < |queue| ==> !SameKey(queue[i], record)) &&
            (Entry(record, NO_SLAB) !in PushControl(queue, record) ==> |Filter(queue, IsControl)| >= 9)
  {
    ReachableWorld(clock, actions);
    var p := Run(InitialWorld(clock), actions).plane;
    assert ClientOk(p.clients[c]);
    hide Run, Invariant;
    PushLostIff(p.clients[c], record);
  }

  lemma PushLostIff(client: Client, record: CompletionRecord)
    requires ClientOk(client) && record.kind != InboundDatagram
    ensures var queue := client.queue;
            (Entry(record, NO_SLAB) !in PushControl(queue, record) <==>
               |queue| == COMPLETION_QUEUE_CAPACITY && forall i :: 0 <= i < |queue| ==> !SameKey(queue[i], record)) &&
            (Entry(record, NO_SLAB) !in PushControl(queue, record) ==> |Filter(queue, IsControl)| >= 9)
  {
    var queue := client.queue;
    if Entry(record, NO_SLAB) !in PushControl(queue, record) {
      DroppedControl(client, record);
      CoalescedControl(queue, record);
    }
    assert forall i :: 0 <= i < |queue| && queue[i] == Entry(record, NO_SLAB) ==> SameKey(queue[i], record);
  }

  lemma {:induction false} RunAppend(w: World, a: seq<Action>, b: seq<Action>)
    ensures Run(w, a + b) == Run(Run(w, a), b)
    decreases |a|
  {
    if a == [] {
      assert a + b == b;
    } else {
      assert (a + b)[0] == a[0] && (a + b)[1..] == a[1..] + b;
      RunAppend(Next(w, a[0]), a[1..], b);
    }
  }

  /**
   * A reservation commits only if no policy change happened since it was granted, as long as fewer
   * changes happened than there are generations.
   */
  lemma CommitNeedsSamePolicy(clock: int, before: seq<Action>, reserve: Action, between: seq<Action>)
    requires reserve.FlowReserved?
    requires var w := Run(InitialWorld(clock), before);
             var r := Reserve(w.plane, reserve.id, reserve.request, reserve.now, reserve.availability).1;
             var v := Run(InitialWorld(clock), before + [reserve] + between);
             r.IsReserved() && CanCommit(v.plane, r) && v.policyChanges < w.policyChanges + GENERATION_PERIOD
    ensures Run(InitialWorld(clock), before + [reserve] + between).policyChanges == Run(InitialWorld(clock), before).policyChanges
  {
    hide *;
    assert before + [reserve] + between == before + ([reserve] + between);
    ReachableWorld(clock, before);
    ReachableWorld(clock, before + [reserve] + between);
    RunAppend(InitialWorld(clock), before, [reserve] + between);
    ChangesGrow(Run(InitialWorld(clock), before), [reserve] + between);
    SamePolicyToCommit(Run(InitialWorld(clock), before), reserve, Run(InitialWorld(clock), before + [reserve] + between));
  }

  lemma {:induction false} ChangesGrow(w: World, actions: seq<Action>)
    ensures Run(w, actions).policyChanges >= w.policyChanges
    decreases |actions|
  {
    hide Step;
    if actions != [] {
      ChangesGrow(Next(w, actions[0]), actions[1..]);
    }
  }

  lemma SamePolicyToCommit(w: World, reserve: Action, v: World)
    requires WorldOk(w) && WorldOk(v) && reserve.FlowReserved?
    requires var r := Reserve(w.plane, reserve.id, reserve.request, reserve.now, reserve.availability).1;
             r.IsReserved() && CanCommit(v.plane, r)
    requires w.policyChanges <= v.policyChanges < w.policyChanges + GENERATION_PERIOD
    ensures v.policyChanges == w.policyChanges
  {
    var slot, port := ReserveGranted(w.plane, reserve.id, reserve.request, reserve.now, reserve.availability);
    SameResidue(w.policyChanges, v.policyChanges);
  }

  lemma SameResidue(a: nat, b: nat)
    requires a <= b < a + GENERATION_PERIOD && a % GENERATION_PERIOD == b % GENERATION_PERIOD
    ensures a == b
  {
  }
}
