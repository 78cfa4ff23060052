/**
 * Back-pressure from the start: any run of the plane, the opening of a worker's flow, and any events after
 * it.  Also what the service's answers to a batch mean for the flow.
 */
module BackPressureRuns {
  import opened TunnelProtocol
  import opened Routing
  import opened FlowPlane
  import opened FlowPlaneInvariant
  import opened FlowPlaneOperations
  import opened FlowPlaneRuns
  import opened FlowPlaneNotices
  import opened FlowPlaneForeign
  import opened BackPressure
  import FlowPlaneWorld
  import FlowPlaneWholeRuns

  // ---------------------------------------------------------------------------------------------
  // Opening

  /** How a worker opens its flow: a client, then a reservation, then a commit, with other parties in between. */
  datatype Opening = Opening(
    first: seq<Action>, request: OpenRequest, now: int, availability: Availability, second: seq<Action>)

  /** The plane after other parties' actions. */
  function RunElsewhere(p: Plane, w: Watch, actions: seq<Action>): Plane
    decreases |actions|
  {
    if actions == [] then p
    else RunElsewhere(if Foreign(actions[0], w) then Step(p, actions[0]) else p, w, actions[1..])
  }

  /** The plane and the watch a worker starts with, and whether it got the flow with this handle. */
  function OpenWorkerFlow(p: Plane, handle: nat, o: Opening): (Plane, Watch, bool) {
    var (created, id) := CreateClient(p);
    var w := Watch(id, handle);
    var (reserved, r) := Reserve(RunElsewhere(created, w, o.first), id, o.request, o.now, o.availability);
    var (committed, ok) := Commit(RunElsewhere(reserved, w, o.second), r);
    (committed, w, r.status == Success && r.flow == handle && ok)
  }

  lemma {:induction false} ElsewhereInvariant(p: Plane, w: Watch, actions: seq<Action>)
    requires Invariant(p)
    ensures Invariant(RunElsewhere(p, w, actions))
    decreases |actions|
  {
    hide Invariant;
    if actions != [] {
      StepInvariant(p, actions[0]);
      ElsewhereInvariant(if Foreign(actions[0], w) then Step(p, actions[0]) else p, w, actions[1..]);
    }
  }

  lemma {:induction false} ElsewhereKeepsMine(p: Plane, w: Watch, actions: seq<Action>)
    requires Invariant(p) && Mine(p, w)
    ensures Mine(RunElsewhere(p, w, actions), w)
    decreases |actions|
  {
    hide Invariant, Mine, Step;
    if actions != [] {
      if Foreign(actions[0], w) {
        ForeignGood(p, w, actions[0]);
        StepInvariant(p, actions[0]);
        ElsewhereKeepsMine(Step(p, actions[0]), w, actions[1..]);
      } else {
        ElsewhereKeepsMine(p, w, actions[1..]);
      }
    }
  }

  /** A new client owns nothing yet: every live flow belongs to a client that already was there. */
  lemma {:induction false} NewClientMine(p: Plane, slot: nat, handle: nat)
    requires Sound(p) && slot <= MAXIMUM_CLIENT_CONTEXTS && handle != 0 && CreateClientAt(p, slot).1 != NO_CLIENT
    ensures Mine(CreateClientAt(p, slot).0, Watch(CreateClientAt(p, slot).1, handle))
    decreases MAXIMUM_CLIENT_CONTEXTS - slot
  {
    if p.clients[slot].inUse {
      NewClientMine(p, slot + 1, handle);
    } else {
      forall s | 0 <= s < MAXIMUM_FLOWS && IsLive(p.flows[s]) ensures p.flows[s].client.slot != slot {
        assert FlowOk(p.clients, p.flows[s]);
      }
    }
  }

  /** A granted reservation names a client of the plane, and its handle is not zero. */
  lemma GrantedHandle(p: Plane, id: ClientId, request: OpenRequest, now: int, availability: Availability)
    requires Invariant(p) && Reserve(p, id, request, now, availability).1.status == Success
    ensures var r := Reserve(p, id, request, now, availability).1;
            r.client == id && r.flow != 0 && IsClient(p.clients, id)
  {
    var slot, port := ReserveGranted(p, id, request, now, availability);
    hide Invariant, Reserve, TupleFree, HasTombstoneReservation;
  }

  lemma ReservedMine(p: Plane, w: Watch, request: OpenRequest, now: int, availability: Availability)
    requires Invariant(p) && Mine(p, w)
    requires Reserve(p, w.id, request, now, availability).1.status == Success
    requires Reserve(p, w.id, request, now, availability).1.flow == w.handle
    ensures Mine(Reserve(p, w.id, request, now, availability).0, w)
  {
    var slot, port := ReserveGranted(p, w.id, request, now, availability);
    hide Invariant, Reserve, KeysOk;
  }

  lemma CommittedLive(p: Plane, w: Watch, r: Reservation)
    requires Invariant(p) && Mine(p, w) && r.client == w.id && r.flow == w.handle && Commit(p, r).1
    ensures JustOpened(Commit(p, r).0, w)
  {
    CommitInvariant(p, r);
    var slot := FindFlow(p, r.client, r.flow).value;
    assert Owns(p.flows[slot], w);
    HandleSlot(slot, p.flows[slot]);
    hide Invariant, KeysOk;
    var q := Commit(p, r).0;
    forall s | 0 <= s < MAXIMUM_FLOWS && Owns(q.flows[s], w) ensures FlowPlane.Handle(s, q.flows[s]) == w.handle {
      assert Owns(p.flows[s], w);
    }
  }

  /** A worker that got its flow stands where no writability and no closure is lost. */
  lemma OpeningEstablishes(p: Plane, handle: nat, o: Opening)
    requires Invariant(p) && OpenWorkerFlow(p, handle, o).2
    ensures JustOpened(OpenWorkerFlow(p, handle, o).0, OpenWorkerFlow(p, handle, o).1)
  {
    CreateClientInvariant(p, 0);
    assert Sound(p);
    hide Invariant, Sound, Mine, CreateClientAt, Reserve, Commit, RunElsewhere;
    var (created, id) := CreateClient(p);
    var w := Watch(id, handle);
    var before := RunElsewhere(created, w, o.first);
    ElsewhereInvariant(created, w, o.first);
    GrantedHandle(before, id, o.request, o.now, o.availability);
    NewClientMine(p, 0, handle);
    ElsewhereKeepsMine(created, w, o.first);
    ReserveInvariant(before, id, o.request, o.now, o.availability);
    ReservedMine(before, w, o.request, o.now, o.availability);
    var (reserved, r) := Reserve(before, id, o.request, o.now, o.availability);
    ElsewhereInvariant(reserved, w, o.second);
    ElsewhereKeepsMine(reserved, w, o.second);
    CommittedLive(RunElsewhere(reserved, w, o.second), w, r);
  }

  /**
   * From the initial plane: after any run, any opening that succeeds and any events, a worker flow that is
   * open is live in the plane or a closed notice is on its way; and if it is not writable, the plane's
   * flow is marked, or a writable notice is on its way, or a closed one is.
   */
  lemma NothingLostFromStart(clock: int, before: seq<Action>, handle: nat, o: Opening, events: seq<Event>)
    requires OpenWorkerFlow(FlowPlaneWorld.Run(FlowPlaneWorld.InitialWorld(clock), before).plane, handle, o).2
    ensures var (p, w, _) := OpenWorkerFlow(FlowPlaneWorld.Run(FlowPlaneWorld.InitialWorld(clock), before).plane, handle, o);
            var s := BackPressure.Run(Opened(p, w), events);
            WatchOk(s.watch) && (!s.closed ==> LiveFlow(s.plane, s.watch) || Notified(s, FlowStateChanged)) &&
            (!s.closed && !s.writable ==> Marked(s) || Notified(s, Writable) || Notified(s, FlowStateChanged))
  {
    var start := FlowPlaneWorld.Run(FlowPlaneWorld.InitialWorld(clock), before).plane;
    FlowPlaneWholeRuns.ReachableWorld(clock, before);
    assert Invariant(start);
    hide Invariant, OpenWorkerFlow, JustOpened, BackPressure.Run, LiveFlow, Marked, Notified;
    OpeningEstablishes(start, handle, o);
    WritabilityNeverLost(OpenWorkerFlow(start, handle, o).0, OpenWorkerFlow(start, handle, o).1, events);
    ClosureNeverLost(OpenWorkerFlow(start, handle, o).0, OpenWorkerFlow(start, handle, o).1, events);
  }

  // ---------------------------------------------------------------------------------------------
  // What the service answers

  predicate CanEnter(s: System) {
    !s.closed && s.batch.InFlight? && s.batch.prepared.None? && |s.batch.statuses| < s.batch.size
  }

  predicate CanLeave(s: System, status: ProtocolStatus) {
    !s.closed && s.batch.InFlight? && s.batch.prepared.Some? && status in {Success, QueueFull, TransportUnavailable}
  }

  /** The answer a step of the service gives to the datagram it is serving, if it gives one. */
  function Answer(s: System, e: Event): Option<ProtocolStatus> {
    match e
    case SendEntered(input, now, protocol, bytes, adapterAccepts) =>
      if !CanEnter(s) then None
      else
        var prepared := PrepareSend(RefreshPolicy(s.plane, input, now), s.watch.id, s.watch.handle, bytes, bytes,
                                    Availability(protocol, true)).1;
        if !prepared.IsPrepared() then Some(prepared.status) else if !adapterAccepts then Some(QueueFull) else None
    case SendLeft(status) => if CanLeave(s, status) then Some(status) else None
    case _ => None
  }

  function Answers(s: System, events: seq<Event>): seq<ProtocolStatus>
    decreases |events|
  {
    if events == [] then []
    else
      var answer := Answer(s, events[0]);
      (if answer.Some? then [answer.value] else []) + Answers(BackPressure.Next(s, events[0]), events[1..])
  }

  /** A batch is being served: nothing is in hand, and no more was answered than asked. */
  predicate Serving(s: System) {
    s.batch.InFlight? && s.inbox == [] && |s.batch.statuses| <= s.batch.size &&
    (s.batch.prepared.Some? ==> |s.batch.statuses| < s.batch.size)
  }

  lemma AnswerRecorded(s: System, e: Event)
    requires Serving(s) && !e.BatchReturned?
    ensures var t := BackPressure.Next(s, e);
            Serving(t) && t.batch.size == s.batch.size && (s.closed ==> t.closed) &&
            t.batch.statuses == s.batch.statuses + (if Answer(s, e).Some? then [Answer(s, e).value] else [])
  {
    hide RefreshPolicy, PrepareSend, CompleteSend, Step;
    assert s.batch.statuses + [] == s.batch.statuses;
  }

  lemma {:induction false} AnswersRecorded(s: System, events: seq<Event>)
    requires Serving(s) && forall i :: 0 <= i < |events| ==> !events[i].BatchReturned?
    ensures var t := BackPressure.Run(s, events);
            Serving(t) && t.batch.size == s.batch.size && t.batch.statuses == s.batch.statuses + Answers(s, events)
    decreases |events|
  {
    if events == [] {
      assert s.batch.statuses + [] == s.batch.statuses;
    } else {
      AnswerRecorded(s, events[0]);
      hide BackPressure.Next, Answer, Serving;
      AnswersRecorded(BackPressure.Next(s, events[0]), events[1..]);
      var answer := Answer(s, events[0]);
      var first, rest := if answer.Some? then [answer.value] else [], Answers(BackPressure.Next(s, events[0]), events[1..]);
      assert s.batch.statuses + first + rest == s.batch.statuses + (first + rest);
    }
  }

  /**
   * When a batch closes an open flow: whatever else happens while the service answers it datagram by
   * datagram, the worker closes the flow on return exactly when some send was answered neither success
   * nor queue-full, or one was taken after another was refused for lack of room.
   */
  lemma BatchClosesIff(s: System, size: nat, events: seq<Event>)
    requires Idle(s) && s.writable && size > 0 && forall i :: 0 <= i < |events| ==> !events[i].BatchReturned?
    requires var called := BackPressure.Next(s, BatchCalled(size));
             !BackPressure.Run(called, events).closed && |Answers(called, events)| == size
    ensures var called := BackPressure.Next(s, BatchCalled(size));
            var returned := BackPressure.Next(BackPressure.Run(called, events), BatchReturned);
            returned.batch == NoBatch && (returned.closed <==> OutboundPool.Disordered(Answers(called, events)))
  {
    hide *;
    var called := BackPressure.Next(s, BatchCalled(size));
    CalledServing(s, size);
    AnswersRecorded(called, events);
    assert [] + Answers(called, events) == Answers(called, events);
    ReturnCloses(BackPressure.Run(called, events));
  }

  lemma CalledServing(s: System, size: nat)
    requires Idle(s) && s.writable && size > 0
    ensures var called := BackPressure.Next(s, BatchCalled(size));
            Serving(called) && called.batch == InFlight(size, [], None)
  {
  }

  lemma ReturnCloses(s: System)
    requires Serving(s) && !s.closed && |s.batch.statuses| == s.batch.size
    ensures var returned := BackPressure.Next(s, BatchReturned);
            returned.batch == NoBatch && (returned.closed <==> OutboundPool.Disordered(s.batch.statuses))
  {
    OutboundPool.TerminalIffDisordered(s.batch.statuses);
    hide OutboundPool.Disordered, OutboundPool.AllQueueFull, OutboundPool.SuccessPrefix;
  }

  /** While the flow is live and the policy as configured, only the adapter and what follows it refuse a send. */
  lemma LiveSendAnswer(s: System, input: PolicyInput, now: int, bytes: nat, adapterAccepts: bool)
    requires Invariant(s.plane) && Mine(s.plane, s.watch) && LiveFlow(s.plane, s.watch) && CanEnter(s)
    requires ResolvePolicy(input) == s.plane.policy && bytes <= MAXIMUM_UDP_PAYLOAD_BYTES
    ensures var e := SendEntered(input, now, true, bytes, adapterAccepts);
            Answer(s, e) == (if adapterAccepts then None else Some(QueueFull)) &&
            var t := BackPressure.Next(s, e);
            Invariant(t.plane) && Mine(t.plane, t.watch) && LiveFlow(t.plane, t.watch) && t.plane.policy == s.plane.policy &&
            t.watch == s.watch && !t.closed && t.inbox == s.inbox && t.writable == s.writable &&
            t.batch.InFlight? && t.batch.size == s.batch.size && t.batch.prepared.Some? == adapterAccepts &&
            (adapterAccepts ==> t.batch.prepared.value.IsPrepared() && t.batch.prepared.value.flow == s.watch.handle) &&
            t.batch.statuses == s.batch.statuses + (if adapterAccepts then [] else [QueueFull])
  {
    hide Invariant, Mine, LiveFlow, PrepareSend, CompleteSend, BackPressure.Next, RefreshPolicy, ResolvePolicy, Answer, Enter;
    var w := s.watch;
    EnterStep(s, input, now, true, bytes, adapterAccepts);
    LiveSendPrepared(s.plane, w, bytes);
    SteadyRefresh(s.plane, input, now);
    var prepared := PrepareSend(s.plane, w.id, w.handle, bytes, bytes, Availability(true, true)).1;
    PreparedAnswer(s, input, now, bytes, adapterAccepts, prepared);
    if !adapterAccepts {
      CompleteSendInvariant(s.plane, prepared, QueueFull);
      CompleteMine(s.plane, w, prepared, QueueFull);
      SentPolicy(s.plane, prepared, QueueFull);
    }
    assert s.batch.statuses + [] == s.batch.statuses;
  }

  lemma PreparedAnswer(s: System, input: PolicyInput, now: int, bytes: nat, adapterAccepts: bool, prepared: Prepared)
    requires CanEnter(s) && RefreshPolicy(s.plane, input, now) == s.plane && prepared.IsPrepared()
    requires PrepareSend(s.plane, s.watch.id, s.watch.handle, bytes, bytes, Availability(true, true)) == (s.plane, prepared)
    ensures Answer(s, SendEntered(input, now, true, bytes, adapterAccepts)) == if adapterAccepts then None else Some(QueueFull)
    ensures Enter(s, input, now, true, bytes, adapterAccepts) ==
            if adapterAccepts then s.(batch := s.batch.(prepared := Some(prepared)))
            else Answered(s, CompleteSend(s.plane, prepared, QueueFull), QueueFull)
  {
    hide PrepareSend, CompleteSend, RefreshPolicy, Answered;
  }

  lemma SteadyRefresh(p: Plane, input: PolicyInput, now: int)
    requires ResolvePolicy(input) == p.policy
    ensures RefreshPolicy(p, input, now) == p
  {
    hide ResolvePolicy;
  }

  lemma EnterStep(s: System, input: PolicyInput, now: int, protocol: bool, bytes: nat, adapterAccepts: bool)
    requires CanEnter(s)
    ensures BackPressure.Next(s, SendEntered(input, now, protocol, bytes, adapterAccepts)) ==
            Enter(s, input, now, protocol, bytes, adapterAccepts)
  {
    hide Enter;
  }

  lemma LiveSendPrepared(p: Plane, w: Watch, bytes: nat)
    requires Invariant(p) && Mine(p, w) && LiveFlow(p, w) && bytes <= MAXIMUM_UDP_PAYLOAD_BYTES
    ensures var (q, prepared) := PrepareSend(p, w.id, w.handle, bytes, bytes, Availability(true, true));
            q == p && prepared.IsPrepared() && prepared.flow == w.handle
  {
    LiveFlowFound(p, w);
    assert w.handle != 0;
    hide Invariant, Mine, FindFlow;
  }

  lemma SentPolicy(p: Plane, prepared: Prepared, status: ProtocolStatus)
    ensures CompleteSend(p, prepared, status).policy == p.policy
  {
  }

  /** A live flow is found by its handle, with a policy in force for its peer. */
  lemma LiveFlowFound(p: Plane, w: Watch)
    requires Invariant(p) && Mine(p, w) && LiveFlow(p, w)
    ensures FindFlow(p, w.id, w.handle) == Some(w.handle % 16)
    ensures p.policy.available && p.flows[w.handle % 16].peer == p.policy.peer
  {
    var s := w.handle % 16;
    assert FlowOk(p.clients, p.flows[s]) && Coherent(p.flows[s], p.policy, p.policyGeneration);
    HandleRoundTrip(s, p.flows[s]);
    hide Invariant, Mine, FlowPlane.Handle, DecodeHandle;
  }
}
