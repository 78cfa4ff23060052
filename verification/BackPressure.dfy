/**
 * Back-pressure across the two processes: one worker flow and the whole plane, with everything else
 * interleaving freely.  A worker flow that waits to become writable is never forgotten.
 */
module BackPressure {
  import opened TunnelProtocol
  import opened Routing
  import opened FlowPlane
  import opened FlowPlaneInvariant
  import opened FlowPlaneOperations
  import opened FlowPlaneDelivery
  import opened FlowPlaneRuns
  import opened FlowPlaneNotices
  import opened FlowPlaneForeign
  import OutboundPool

  /** A batch call of the worker that the service is answering datagram by datagram. */
  datatype Batch = NoBatch | InFlight(size: nat, statuses: seq<ProtocolStatus>, prepared: Option<Prepared>)

  /** The plane, the worker's submission state for its flow, and the completions it has yet to handle. */
  datatype System = System(
    plane: Plane, watch: Watch, writable: bool, closed: bool, inbox: seq<CompletionRecord>, batch: Batch)

  datatype Event =
    | Elsewhere(action: Action)
    | DrainCalled(records: nat, capacity: nat)
    | RecordHandled
    | BatchCalled(size: nat)
    | SendEntered(input: PolicyInput, now: int, protocol: bool, bytes: nat, adapterAccepts: bool)
    | SendLeft(status: ProtocolStatus)
    | BatchReturned
    | CallFailed

  /** The worker handles completions and submits batches one at a time. */
  predicate Idle(s: System) {
    !s.closed && s.inbox == [] && s.batch == NoBatch
  }

  function Answered(s: System, plane: Plane, status: ProtocolStatus): System
    requires s.batch.InFlight?
  {
    s.(plane := plane, batch := InFlight(s.batch.size, s.batch.statuses + [status], None))
  }

  /** The first lock scope of a send: refresh, prepare, and hand the datagram to the adapter. */
  function Enter(s: System, input: PolicyInput, now: int, protocol: bool, bytes: nat, adapterAccepts: bool): System
    requires s.batch.InFlight?
  {
    var refreshed := RefreshPolicy(s.plane, input, now);
    var (plane, prepared) :=
      PrepareSend(refreshed, s.watch.id, s.watch.handle, bytes, bytes, Availability(protocol, true));
    if !prepared.IsPrepared() then Answered(s, plane, prepared.status)
    else if !adapterAccepts then Answered(s, CompleteSend(plane, prepared, QueueFull), QueueFull)
    else s.(plane := plane, batch := s.batch.(prepared := Some(prepared)))
  }

  function Handle(s: System, r: CompletionRecord): System {
    if r.flow != s.watch.handle then s
    else if r.kind == FlowStateChanged && r.flowState == Closed then s.(closed := true, writable := false)
    else if r.kind == Writable then s.(writable := true)
    else s
  }

  function Drained(s: System, records: nat, capacity: nat): System {
    var (plane, status, drained) := ServeReceive(s.plane, s.watch.id, records, capacity);
    if status == Success then s.(plane := plane, inbox := drained.records)
    else if status == QueueEmpty then s.(plane := plane)
    else s.(plane := plane, closed := true, writable := false)
  }

  function Returned(s: System): System
    requires s.batch.InFlight?
  {
    var statuses := s.batch.statuses;
    var rest := statuses[OutboundPool.SuccessPrefix(statuses)..];
    var done := s.(batch := NoBatch);
    if !OutboundPool.AllQueueFull(rest) then done.(closed := true, writable := false)
    else if rest != [] then done.(writable := false)
    else done
  }

  function Next(s: System, e: Event): System {
    match e
    case Elsewhere(a) => if Foreign(a, s.watch) then s.(plane := Step(s.plane, a)) else s
    case DrainCalled(records, capacity) => if Idle(s) then Drained(s, records, capacity) else s
    case RecordHandled => if s.closed || s.inbox == [] then s else Handle(s, s.inbox[0]).(inbox := s.inbox[1..])
    case BatchCalled(size) => if Idle(s) && s.writable && size > 0 then s.(batch := InFlight(size, [], None)) else s
    case SendEntered(input, now, protocol, bytes, adapterAccepts) =>
      if s.closed || !s.batch.InFlight? || s.batch.prepared.Some? || |s.batch.statuses| >= s.batch.size then s
      else Enter(s, input, now, protocol, bytes, adapterAccepts)
    case SendLeft(status) =>
      if s.closed || !s.batch.InFlight? || s.batch.prepared.None? || status !in {Success, QueueFull, TransportUnavailable} then s
      else Answered(s, CompleteSend(s.plane, s.batch.prepared.value, status), status)
    case BatchReturned =>
      if s.closed || !s.batch.InFlight? || s.batch.prepared.Some? || |s.batch.statuses| != s.batch.size then s else Returned(s)
    case CallFailed => s.(closed := true, writable := false)
  }

  function Run(s: System, events: seq<Event>): System
    decreases |events|
  {
    if events == [] then s else Run(Next(s, events[0]), events[1..])
  }

  // ---------------------------------------------------------------------------------------------
  // Invariant

  predicate HasRecord(records: seq<CompletionRecord>, kind: CompletionType, handle: nat) {
    exists i :: 0 <= i < |records| && records[i].kind == kind && records[i].flow == handle
  }

  predicate Reaches(queue: seq<Entry>, records: seq<CompletionRecord>, kind: CompletionType, handle: nat) {
    HasNotice(queue, kind, handle) || HasRecord(records, kind, handle)
  }

  /** A notice waits in the plane's queue or among the completions in hand. */
  predicate Notified(s: System, kind: CompletionType)
    requires WatchOk(s.watch)
  {
    Reaches(MyQueue(s.plane, s.watch), s.inbox, kind, s.watch.handle)
  }

  predicate EntriesOk(queue: seq<Entry>) {
    forall i :: 0 <= i < |queue| ==> EntryOk(queue[i])
  }

  /** No notice gets lost on its way from a queue to the reader. */
  ghost predicate Carried(
    queue: seq<Entry>, records: seq<CompletionRecord>, rest: seq<Entry>, more: seq<CompletionRecord>, handle: nat)
  {
    forall kind :: kind != InboundDatagram && Reaches(queue, records, kind, handle) ==> Reaches(rest, more, kind, handle)
  }

  predicate InboxOk(inbox: seq<CompletionRecord>, handle: nat) {
    forall i :: 0 <= i < |inbox| && inbox[i].kind == FlowStateChanged && inbox[i].flow == handle ==> inbox[i].flowState == Closed
  }

  /** Queue-full was the last word so far, so the worker is about to stop being writable. */
  predicate Filled(statuses: seq<ProtocolStatus>) {
    var n := OutboundPool.SuccessPrefix(statuses);
    n < |statuses| && OutboundPool.AllQueueFull(statuses[n..])
  }

  predicate Waits(s: System) {
    !s.writable || (s.batch.InFlight? && Filled(s.batch.statuses))
  }

  predicate Marked(s: System) {
    LiveFlow(s.plane, s.watch) && s.plane.flows[s.watch.handle % 16].writableWaiter
  }

  predicate BatchOk(s: System) {
    s.batch.InFlight? ==>
      s.inbox == [] && s.writable &&
      (s.batch.prepared.Some? ==> s.batch.prepared.value.IsPrepared() && s.batch.prepared.value.flow == s.watch.handle)
  }

  /** What holds while the worker's flow is open. */
  ghost predicate OpenOk(s: System) {
    Mine(s.plane, s.watch) && InboxOk(s.inbox, s.watch.handle) && BatchOk(s) &&
    (LiveFlow(s.plane, s.watch) || Notified(s, FlowStateChanged)) &&
    (Waits(s) ==> Marked(s) || Notified(s, Writable) || Notified(s, FlowStateChanged))
  }

  ghost predicate Ok(s: System) {
    Invariant(s.plane) && (!s.closed ==> OpenOk(s))
  }

  // ---------------------------------------------------------------------------------------------
  // Steps of the plane

  /** A plane step that keeps the notices keeps the system right. */
  lemma PlaneStepOk(s: System, plane: Plane)
    requires OpenOk(s) && Good(s.plane, plane, s.watch)
    ensures OpenOk(s.(plane := plane))
  {
    hide HasNotice, HasRecord, LiveFlow, Filled, InboxOk;
  }

  lemma ElsewhereOk(s: System, a: Action)
    requires Ok(s) && Foreign(a, s.watch)
    ensures Ok(s.(plane := Step(s.plane, a)))
  {
    ForeignGood(s.plane, s.watch, a);
    StepInvariant(s.plane, a);
    hide Invariant, Step, OpenOk, Good;
    if !s.closed {
      PlaneStepOk(s, Step(s.plane, a));
    }
  }

  // ---------------------------------------------------------------------------------------------
  // Sending

  /** With staging available, preparing a send changes nothing. */
  lemma PrepareChangesNothing(p: Plane, w: Watch, protocol: bool, bytes: nat)
    requires WatchOk(w)
    ensures var (q, prepared) := PrepareSend(p, w.id, w.handle, bytes, bytes, Availability(protocol, true));
            q == p && (prepared.IsPrepared() ==> prepared.flow == w.handle) && prepared.status != QueueFull
  {
  }

  /** Completing the watched flow's send sets or clears its mark and nothing else. */
  lemma CompleteMine(p: Plane, w: Watch, prepared: Prepared, status: ProtocolStatus)
    requires Mine(p, w) && prepared.IsPrepared() && prepared.flow == w.handle
    ensures var q := CompleteSend(p, prepared, status);
            Mine(q, w) && MyQueue(q, w) == MyQueue(p, w) && (LiveFlow(p, w) <==> LiveFlow(q, w)) &&
            (status == QueueFull && LiveFlow(p, w) ==> q.flows[w.handle % 16].writableWaiter) &&
            (status != QueueFull && status != Success ==> q == p)
  {
    hide KeysOk;
    var q := CompleteSend(p, prepared, status);
    forall s | 0 <= s < MAXIMUM_FLOWS && Owns(q.flows[s], w) ensures FlowPlane.Handle(s, q.flows[s]) == w.handle {
      assert Owns(p.flows[s], w);
    }
  }

  lemma FilledSnoc(statuses: seq<ProtocolStatus>, status: ProtocolStatus)
    ensures Filled(statuses + [status]) ==> status == QueueFull
    ensures Filled(statuses + [status]) && status == QueueFull && OutboundPool.SuccessPrefix(statuses) < |statuses| ==> Filled(statuses)
  {
    var all := statuses + [status];
    var n := OutboundPool.SuccessPrefix(all);
    if Filled(all) {
      assert all[n..][|all| - 1 - n] == status;
      if OutboundPool.SuccessPrefix(statuses) < |statuses| {
        SamePrefix(statuses, status);
        forall i | 0 <= i < |statuses[n..]| ensures statuses[n..][i] == QueueFull {
          assert all[n..][i] == statuses[n..][i];
        }
      }
    }
  }

  lemma SamePrefix(statuses: seq<ProtocolStatus>, status: ProtocolStatus)
    requires OutboundPool.SuccessPrefix(statuses) < |statuses|
    ensures OutboundPool.SuccessPrefix(statuses + [status]) == OutboundPool.SuccessPrefix(statuses)
  {
    var n, m := OutboundPool.SuccessPrefix(statuses), OutboundPool.SuccessPrefix(statuses + [status]);
    assert forall i :: 0 <= i < |statuses| ==> (statuses + [status])[i] == statuses[i];
  }

  /** One datagram answered: a queue-full answer leaves the flow marked or its end announced. */
  lemma AnsweredOk(s: System, prepared: Prepared, status: ProtocolStatus)
    requires OpenOk(s) && s.batch.InFlight? && prepared.IsPrepared() && prepared.flow == s.watch.handle
    ensures OpenOk(Answered(s, CompleteSend(s.plane, prepared, status), status))
  {
    CompleteMine(s.plane, s.watch, prepared, status);
    FilledSnoc(s.batch.statuses, status);
    hide HasNotice, HasRecord, LiveFlow, Filled, InboxOk, CompleteSend, Mine;
  }

  /** An answer other than queue-full. */
  lemma RefusedOk(s: System, status: ProtocolStatus)
    requires OpenOk(s) && s.batch.InFlight? && status != QueueFull
    ensures OpenOk(Answered(s, s.plane, status))
  {
    FilledSnoc(s.batch.statuses, status);
    hide HasNotice, HasRecord, LiveFlow, Filled, InboxOk, Mine;
  }

  lemma EnterOk(s: System, input: PolicyInput, now: int, protocol: bool, bytes: nat, adapterAccepts: bool)
    requires Ok(s) && !s.closed && s.batch.InFlight? && s.batch.prepared.None?
    ensures Ok(Enter(s, input, now, protocol, bytes, adapterAccepts))
  {
    var refreshed := RefreshPolicy(s.plane, input, now);
    RefreshGood(s.plane, s.watch, input, now);
    RefreshPolicyInvariant(s.plane, input, now);
    PlaneStepOk(s, refreshed);
    assert WatchOk(s.watch);
    PrepareChangesNothing(refreshed, s.watch, protocol, bytes);
    hide Invariant, RefreshPolicy, OpenOk, PrepareSend, CompleteSend;
    var settled := s.(plane := refreshed);
    var prepared := PrepareSend(refreshed, s.watch.id, s.watch.handle, bytes, bytes, Availability(protocol, true)).1;
    if !prepared.IsPrepared() {
      RefusedOk(settled, prepared.status);
    } else if !adapterAccepts {
      CompleteSendInvariant(refreshed, prepared, QueueFull);
      AnsweredOk(settled, prepared, QueueFull);
    } else {
      PreparedOk(settled, prepared);
    }
  }

  lemma PreparedOk(s: System, prepared: Prepared)
    requires OpenOk(s) && s.batch.InFlight? && prepared.IsPrepared() && prepared.flow == s.watch.handle
    ensures OpenOk(s.(batch := s.batch.(prepared := Some(prepared))))
  {
    hide HasNotice, HasRecord, LiveFlow, Filled, InboxOk, Mine;
  }

  lemma LeaveOk(s: System, status: ProtocolStatus)
    requires Ok(s) && !s.closed && s.batch.InFlight? && s.batch.prepared.Some?
    ensures Ok(Answered(s, CompleteSend(s.plane, s.batch.prepared.value, status), status))
  {
    var prepared := s.batch.prepared.value;
    assert BatchOk(s);
    CompleteSendInvariant(s.plane, prepared, status);
    hide Invariant, OpenOk, CompleteSend;
    AnsweredOk(s, prepared, status);
  }

  lemma ReturnedOk(s: System)
    requires Ok(s) && !s.closed && s.batch.InFlight? && s.batch.prepared.None?
    ensures Ok(Returned(s))
  {
    hide Invariant, HasNotice, HasRecord, LiveFlow, InboxOk, Mine;
  }

  // ---------------------------------------------------------------------------------------------
  // Receiving

  lemma HandledOk(s: System)
    requires Ok(s) && !s.closed && s.inbox != []
    ensures Ok(Handle(s, s.inbox[0]).(inbox := s.inbox[1..]))
  {
    hide Invariant, HasNotice, LiveFlow, Filled, Mine, HasRecord, InboxOk;
    var r, rest := s.inbox[0], s.inbox[1..];
    InboxRest(s.inbox, s.watch.handle);
    if HasRecord(s.inbox, FlowStateChanged, s.watch.handle) && !(r.kind == FlowStateChanged && r.flow == s.watch.handle) {
      StillHasRecord(s.inbox, FlowStateChanged, s.watch.handle);
    }
    if HasRecord(s.inbox, Writable, s.watch.handle) && !(r.kind == Writable && r.flow == s.watch.handle) {
      StillHasRecord(s.inbox, Writable, s.watch.handle);
    }
  }

  lemma StillHasRecord(inbox: seq<CompletionRecord>, kind: CompletionType, handle: nat)
    requires inbox != [] && HasRecord(inbox, kind, handle) && !(inbox[0].kind == kind && inbox[0].flow == handle)
    ensures HasRecord(inbox[1..], kind, handle)
  {
    var i :| 0 <= i < |inbox| && inbox[i].kind == kind && inbox[i].flow == handle;
    assert inbox[1..][i - 1] == inbox[i];
  }

  lemma InboxRest(inbox: seq<CompletionRecord>, handle: nat)
    requires inbox != [] && InboxOk(inbox, handle)
    ensures InboxOk(inbox[1..], handle)
    ensures inbox[0].kind == FlowStateChanged && inbox[0].flow == handle ==> inbox[0].flowState == Closed
  {
    assert forall i :: 0 <= i < |inbox[1..]| ==> inbox[1..][i] == inbox[i + 1];
  }

  /** What a drain by the watched client itself moves from its queue to the reader. */
  lemma {:induction false} DrainMoves(p: Plane, w: Watch, records: nat, capacity: nat, out: FlowPlane.Drained)
    requires Mine(p, w) && EntriesOk(MyQueue(p, w)) && InboxOk(out.records, w.handle)
    ensures var (q, done) := Drain(p, w.id, records, capacity, out);
            Mine(q, w) && InboxOk(done.records, w.handle) && (LiveFlow(p, w) <==> LiveFlow(q, w)) &&
            (LiveFlow(p, w) ==> q.flows[w.handle % 16].writableWaiter == p.flows[w.handle % 16].writableWaiter) &&
            Carried(MyQueue(p, w), out.records, MyQueue(q, w), done.records, w.handle)
    decreases |MyQueue(p, w)|
  {
    var queue := MyQueue(p, w);
    if |out.records| < records && queue != [] && capacity - |out.payload| >= |PayloadOf(p.slabs, queue[0])| {
      var next := WithEntry(p.slabs, queue[0], out);
      PopMoves(p, w, out);
      hide Mine, LiveFlow, Reaches, InboxOk, EntriesOk, WithEntry, PopFront, FlowPlane.Handle;
      DrainMoves(PopFront(p, w.id), w, records, capacity, next);
    }
  }

  lemma PopMoves(p: Plane, w: Watch, out: FlowPlane.Drained)
    requires Mine(p, w) && EntriesOk(MyQueue(p, w)) && InboxOk(out.records, w.handle) && MyQueue(p, w) != []
    ensures var q := PopFront(p, w.id);
            var next := WithEntry(p.slabs, MyQueue(p, w)[0], out);
            Mine(q, w) && EntriesOk(MyQueue(q, w)) && |MyQueue(q, w)| < |MyQueue(p, w)| && InboxOk(next.records, w.handle) &&
            (LiveFlow(p, w) <==> LiveFlow(q, w)) &&
            (LiveFlow(p, w) ==> q.flows[w.handle % 16].writableWaiter == p.flows[w.handle % 16].writableWaiter) &&
            Carried(MyQueue(p, w), out.records, MyQueue(q, w), next.records, w.handle)
  {
    var q := PopFront(p, w.id);
    var queue := MyQueue(p, w);
    PopQueueNotices(p.slabs, queue, out, w.handle);
    assert MyQueue(q, w) == queue[1..];
    hide Carried, KeysOk, InboxOk, EntriesOk;
    forall s | 0 <= s < MAXIMUM_FLOWS
      ensures q.flows[s] == p.flows[s].(occupancy := q.flows[s].occupancy) && FlowPlane.Handle(s, q.flows[s]) == FlowPlane.Handle(s, p.flows[s])
    {
    }
  }

  /** The front entry's notice, if it is one, is handed over; the others stay. */
  lemma PopQueueNotices(slabs: Slabs, queue: seq<Entry>, out: FlowPlane.Drained, handle: nat)
    requires queue != [] && KeysOk(queue, handle) && EntriesOk(queue) && InboxOk(out.records, handle)
    ensures KeysOk(queue[1..], handle) && EntriesOk(queue[1..])
    ensures var next := WithEntry(slabs, queue[0], out);
            InboxOk(next.records, handle) && Carried(queue, out.records, queue[1..], next.records, handle)
  {
    var next := WithEntry(slabs, queue[0], out);
    assert KeyOk(queue[0], handle) && EntryOk(queue[0]);
    assert forall i :: 0 <= i < |queue[1..]| ==> queue[1..][i] == queue[i + 1];
    forall kind | kind != InboundDatagram && Reaches(queue, out.records, kind, handle)
      ensures Reaches(queue[1..], next.records, kind, handle)
    {
      if HasRecord(out.records, kind, handle) {
        var i :| 0 <= i < |out.records| && out.records[i].kind == kind && out.records[i].flow == handle;
        assert next.records[i] == out.records[i];
      } else {
        var i :| 0 <= i < |queue| && Notice(queue[i], kind, handle);
        if i == 0 {
          assert next.records[|out.records|] == queue[0].record;
        } else {
          assert queue[1..][i - 1] == queue[i];
        }
      }
    }
  }

  lemma DrainedOk(s: System, records: nat, capacity: nat)
    requires Ok(s) && Idle(s)
    ensures Ok(Drained(s, records, capacity))
  {
    ServeReceiveInvariant(s.plane, s.watch.id, records, capacity);
    hide Invariant;
    var (plane, status, drained) := ServeReceive(s.plane, s.watch.id, records, capacity);
    if status == Success || status == QueueEmpty {
      MyEntriesOk(s.plane, s.watch);
      ReceiveMoves(s, records, capacity);
      hide ServeReceive, OpenOk;
    }
  }

  lemma MyEntriesOk(p: Plane, w: Watch)
    requires Invariant(p) && WatchOk(w)
    ensures EntriesOk(MyQueue(p, w))
  {
    assert ClientOk(p.clients[w.id.slot]);
  }

  lemma ReceiveMoves(s: System, records: nat, capacity: nat)
    requires OpenOk(s) && Idle(s) && EntriesOk(MyQueue(s.plane, s.watch))
    ensures var (plane, status, drained) := ServeReceive(s.plane, s.watch.id, records, capacity);
            status == Success || status == QueueEmpty ==> OpenOk(s.(plane := plane, inbox := drained.records))
  {
    var w := s.watch;
    var (plane, status, drained) := ServeReceive(s.plane, w.id, records, capacity);
    assert IsClient(s.plane.clients, w.id);
    if status == Success || status == QueueEmpty {
      DrainMoves(s.plane, w, records, capacity, FlowPlane.Drained([], []));
      var (q, done) := Drain(s.plane, w.id, records, capacity, FlowPlane.Drained([], []));
      ClearedEvent(q, plane, w);
      assert done == drained;
      MovedOk(s, plane, done.records);
    }
  }

  /** Clearing the completion event of an empty queue is invisible. */
  lemma ClearedEvent(q: Plane, r: Plane, w: Watch)
    requires Mine(q, w)
    requires r == q || (MyQueue(q, w) == [] && r == q.(clients := q.clients[w.id.slot := q.clients[w.id.slot].(event := false)]))
    ensures Mine(r, w) && MyQueue(r, w) == MyQueue(q, w) && r.flows == q.flows
  {
    hide HasNotice;
  }

  lemma MovedOk(s: System, plane: Plane, inbox: seq<CompletionRecord>)
    requires OpenOk(s) && Idle(s) && Mine(plane, s.watch) && InboxOk(inbox, s.watch.handle)
    requires LiveFlow(s.plane, s.watch) <==> LiveFlow(plane, s.watch)
    requires LiveFlow(s.plane, s.watch) ==>
      plane.flows[s.watch.handle % 16].writableWaiter == s.plane.flows[s.watch.handle % 16].writableWaiter
    requires Carried(MyQueue(s.plane, s.watch), [], MyQueue(plane, s.watch), inbox, s.watch.handle)
    ensures OpenOk(s.(plane := plane, inbox := inbox))
  {
    hide Reaches, Mine, LiveFlow, InboxOk, Filled;
  }

  // ---------------------------------------------------------------------------------------------
  // Runs

  lemma NextOk(s: System, e: Event)
    requires Ok(s)
    ensures Ok(Next(s, e)) && Next(s, e).watch == s.watch
  {
    hide Ok, Enter, Answered, Returned, Drained, Handle, Step;
    match e
    case Elsewhere(a) =>
      if Foreign(a, s.watch) {
        ElsewhereOk(s, a);
      }
    case DrainCalled(records, capacity) =>
      if Idle(s) {
        DrainedOk(s, records, capacity);
        WatchKept(s, records, capacity);
      }
    case RecordHandled =>
      if !s.closed && s.inbox != [] {
        HandledOk(s);
        HandleKeepsWatch(s, s.inbox[0]);
      }
    case BatchCalled(size) =>
      if Idle(s) && s.writable && size > 0 {
        CalledOk(s, size);
      }
    case SendEntered(input, now, protocol, bytes, adapterAccepts) =>
      if !s.closed && s.batch.InFlight? && s.batch.prepared.None? {
        EnterOk(s, input, now, protocol, bytes, adapterAccepts);
        EnterKeepsWatch(s, input, now, protocol, bytes, adapterAccepts);
      }
    case SendLeft(status) =>
      if !s.closed && s.batch.InFlight? && s.batch.prepared.Some? {
        LeaveOk(s, status);
        AnsweredKeepsWatch(s, CompleteSend(s.plane, s.batch.prepared.value, status), status);
      }
    case BatchReturned =>
      if !s.closed && s.batch.InFlight? && s.batch.prepared.None? {
        ReturnedOk(s);
        ReturnedKeepsWatch(s);
      }
    case CallFailed => FailedOk(s);
  }

  lemma WatchKept(s: System, records: nat, capacity: nat)
    ensures Drained(s, records, capacity).watch == s.watch
  {
    hide ServeReceive;
  }

  lemma HandleKeepsWatch(s: System, r: CompletionRecord)
    ensures Handle(s, r).watch == s.watch
  {
  }

  lemma EnterKeepsWatch(s: System, input: PolicyInput, now: int, protocol: bool, bytes: nat, adapterAccepts: bool)
    requires s.batch.InFlight?
    ensures Enter(s, input, now, protocol, bytes, adapterAccepts).watch == s.watch
  {
    hide RefreshPolicy, PrepareSend, CompleteSend;
  }

  lemma AnsweredKeepsWatch(s: System, plane: Plane, status: ProtocolStatus)
    requires s.batch.InFlight?
    ensures Answered(s, plane, status).watch == s.watch
  {
  }

  lemma ReturnedKeepsWatch(s: System)
    requires s.batch.InFlight?
    ensures Returned(s).watch == s.watch
  {
  }

  lemma CalledOk(s: System, size: nat)
    requires Ok(s) && Idle(s) && s.writable
    ensures Ok(s.(batch := InFlight(size, [], None)))
  {
    hide Invariant, Mine, HasNotice, HasRecord, LiveFlow, InboxOk;
  }

  lemma FailedOk(s: System)
    requires Ok(s)
    ensures Ok(s.(closed := true, writable := false))
  {
    hide Invariant, OpenOk;
  }

  lemma {:induction false} RunOk(s: System, events: seq<Event>)
    requires Ok(s)
    ensures Ok(Run(s, events)) && Run(s, events).watch == s.watch
    decreases |events|
  {
    if events != [] {
      NextOk(s, events[0]);
      RunOk(Next(s, events[0]), events[1..]);
    }
  }

  // ---------------------------------------------------------------------------------------------
  // Results

  /** A worker that has just opened its flow: the plane holds it committed, and nothing was exchanged yet. */
  ghost predicate JustOpened(p: Plane, w: Watch) {
    Invariant(p) && Mine(p, w) && LiveFlow(p, w)
  }

  function Opened(p: Plane, w: Watch): System {
    System(p, w, true, false, [], NoBatch)
  }

  /**
   * No lost writability: whatever happens after the worker opened its flow, as long as the flow is open
   * but not writable, the plane's flow is marked as waiting, or a writable notice is on its way, or a
   * closed notice is.
   */
  lemma WritabilityNeverLost(p: Plane, w: Watch, events: seq<Event>)
    requires JustOpened(p, w)
    ensures var s := Run(Opened(p, w), events);
            WatchOk(s.watch) && (!s.closed && !s.writable ==> Marked(s) || Notified(s, Writable) || Notified(s, FlowStateChanged))
  {
    assert Ok(Opened(p, w)) by {
      hide Invariant, Mine, HasNotice, LiveFlow;
    }
    RunOk(Opened(p, w), events);
    hide Run, Mine;
    assert WatchOk(w) by { WatchIsOk(p, w); }
  }

  lemma WatchIsOk(p: Plane, w: Watch)
    requires Mine(p, w)
    ensures WatchOk(w)
  {
  }

  /** Nor is the end of a flow: an open worker flow is live in the plane or a closed notice is on its way. */
  lemma ClosureNeverLost(p: Plane, w: Watch, events: seq<Event>)
    requires JustOpened(p, w)
    ensures var s := Run(Opened(p, w), events);
            WatchOk(s.watch) && (!s.closed ==> LiveFlow(s.plane, s.watch) || Notified(s, FlowStateChanged))
  {
    assert Ok(Opened(p, w)) by {
      hide Invariant, Mine, HasNotice, LiveFlow;
    }
    RunOk(Opened(p, w), events);
    hide Run, Mine;
    assert WatchOk(w) by { WatchIsOk(p, w); }
  }

  /**
   * And it comes back: when capacity is freed for the peer of a waiting flow that is open and live, a
   * writable notice reaches the worker, and handling it makes the flow writable.
   */
  lemma FreedCapacityWakes(s: System, peer: PeerIdentity)
    requires Ok(s) && !s.closed && Marked(s) && s.plane.flows[s.watch.handle % 16].peer == peer
    ensures Next(s, Elsewhere(CapacityFreed(peer))) == s.(plane := NotifyCapacityFrom(s.plane, 0, peer))
    ensures Notified(s.(plane := NotifyCapacityFrom(s.plane, 0, peer)), Writable)
  {
    CapacityStep(s, peer);
    hide Next;
    assert AwaitsCapacity(s.plane.flows[s.watch.handle % 16], peer);
    CapacityReaches(s.plane, s.watch, 0, peer);
    hide *;
    ReachesByQueue(s, NotifyCapacityFrom(s.plane, 0, peer));
  }

  lemma CapacityStep(s: System, peer: PeerIdentity)
    ensures Next(s, Elsewhere(CapacityFreed(peer))) == s.(plane := NotifyCapacityFrom(s.plane, 0, peer))
  {
    hide NotifyCapacityFrom, Drained, Enter, Answered, Returned, Handle;
  }

  lemma ReachesByQueue(s: System, plane: Plane)
    requires WatchOk(s.watch) && HasNotice(MyQueue(plane, s.watch), Writable, s.watch.handle)
    ensures Notified(s.(plane := plane), Writable)
  {
    hide HasNotice;
  }

  lemma WritableNoticeWakes(s: System)
    requires !s.closed && s.inbox != [] && s.inbox[0].kind == Writable && s.inbox[0].flow == s.watch.handle
    ensures Next(s, RecordHandled).writable && !Next(s, RecordHandled).closed
  {
  }
}
