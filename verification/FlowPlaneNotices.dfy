/**
 * What a client with one flow is told.  As long as its flow is not live, a closed notice waits in its
 * queue; and once it waits for capacity, the flow is marked, a writable notice waits, or a closed
 * notice does.  Nothing that other clients, peers or the policy do takes this away.
 */
module FlowPlaneNotices {
  import opened Counting
  import opened TunnelProtocol
  import opened FlowPlane
  import opened FlowPlaneInvariant
  import opened FlowPlaneClosing

  /** A client and the handle of the only flow it opens. */
  datatype Watch = Watch(id: ClientId, handle: nat)

  predicate WatchOk(w: Watch) {
    w.id.slot < MAXIMUM_CLIENT_CONTEXTS && w.id.generation != 0 && w.handle != 0
  }

  /** The control entries a client with one flow can have. */
  predicate KeyOk(e: Entry, handle: nat) {
    IsData(e) ||
    (e.record.kind == PolicyChanged && e.record.flow == 0) ||
    (e.record.kind == Writable && e.record.flow == handle) ||
    (e.record.kind == FlowStateChanged && e.record.flow == handle && e.record.flowState == Closed)
  }

  predicate KeysOk(queue: seq<Entry>, handle: nat) {
    forall i :: 0 <= i < |queue| ==> KeyOk(queue[i], handle)
  }

  predicate Notice(e: Entry, kind: CompletionType, handle: nat) {
    !IsData(e) && e.record.kind == kind && e.record.flow == handle
  }

  predicate HasNotice(queue: seq<Entry>, kind: CompletionType, handle: nat) {
    exists i :: 0 <= i < |queue| && Notice(queue[i], kind, handle)
  }

  function MyQueue(p: Plane, w: Watch): seq<Entry>
    requires WatchOk(w)
  {
    p.clients[w.id.slot].queue
  }

  predicate Owns(f: Flow, w: Watch) {
    IsLive(f) && f.client == w.id
  }

  ghost predicate Mine(p: Plane, w: Watch) {
    WatchOk(w) && IsClient(p.clients, w.id) && KeysOk(MyQueue(p, w), w.handle) &&
    forall s :: 0 <= s < MAXIMUM_FLOWS && Owns(p.flows[s], w) ==> Handle(s, p.flows[s]) == w.handle
  }

  /** The flow is committed and open in the plane. */
  predicate LiveFlow(p: Plane, w: Watch) {
    var s := w.handle % 16;
    IsCommitted(p.flows[s]) && p.flows[s].client == w.id && Handle(s, p.flows[s]) == w.handle
  }

  predicate Told(p: Plane, w: Watch)
    requires WatchOk(w)
  {
    LiveFlow(p, w) || HasNotice(MyQueue(p, w), FlowStateChanged, w.handle)
  }

  /** Something will make the waiting worker writable or close it. */
  predicate Backed(p: Plane, w: Watch)
    requires WatchOk(w)
  {
    (LiveFlow(p, w) && p.flows[w.handle % 16].writableWaiter) ||
    HasNotice(MyQueue(p, w), Writable, w.handle) || HasNotice(MyQueue(p, w), FlowStateChanged, w.handle)
  }

  /** A step that takes none of these facts away. */
  ghost predicate Good(p: Plane, q: Plane, w: Watch) {
    Mine(p, w) ==> Mine(q, w) && (Told(p, w) ==> Told(q, w)) && (Backed(p, w) ==> Backed(q, w))
  }

  lemma GoodTransitive(p: Plane, q: Plane, r: Plane, w: Watch)
    requires Good(p, q, w) && Good(q, r, w)
    ensures Good(p, r, w)
  {
  }

  // ---------------------------------------------------------------------------------------------
  // Steps that change nothing the client can see

  predicate FlowSteady(f: Flow, g: Flow, w: Watch) {
    (Owns(g, w) ==> Owns(f, w) && g.generation == f.generation) &&
    (IsCommitted(f) && f.client == w.id ==>
       IsCommitted(g) && g.client == w.id && g.generation == f.generation && g.writableWaiter == f.writableWaiter)
  }

  predicate FlowsSteady(f: Flows, g: Flows, w: Watch) {
    forall s :: 0 <= s < MAXIMUM_FLOWS ==> FlowSteady(f[s], g[s], w)
  }

  ghost predicate SameControls(a: seq<Entry>, b: seq<Entry>) {
    forall e :: !IsData(e) ==> (e in a <==> e in b)
  }

  ghost predicate ClientSteady(a: Client, b: Client) {
    b.inUse == a.inUse && b.generation == a.generation && SameControls(a.queue, b.queue)
  }

  lemma KeepsNotice(a: seq<Entry>, b: seq<Entry>, kind: CompletionType, handle: nat)
    requires SameControls(a, b) && HasNotice(a, kind, handle)
    ensures HasNotice(b, kind, handle)
  {
    var i :| 0 <= i < |a| && Notice(a[i], kind, handle);
    assert a[i] in b;
    var j :| 0 <= j < |b| && b[j] == a[i];
  }

  lemma KeepsKeys(a: seq<Entry>, b: seq<Entry>, handle: nat)
    requires SameControls(a, b) && KeysOk(a, handle)
    ensures KeysOk(b, handle)
  {
    forall i | 0 <= i < |b| ensures KeyOk(b[i], handle) {
      if !IsData(b[i]) {
        assert b[i] in a;
      }
    }
  }

  lemma SteadyGood(p: Plane, q: Plane, w: Watch)
    requires WatchOk(w) ==> ClientSteady(p.clients[w.id.slot], q.clients[w.id.slot])
    requires FlowsSteady(p.flows, q.flows, w)
    ensures Good(p, q, w)
  {
    if Mine(p, w) {
      var a, b := MyQueue(p, w), MyQueue(q, w);
      KeepsKeys(a, b, w.handle);
      if HasNotice(a, FlowStateChanged, w.handle) {
        KeepsNotice(a, b, FlowStateChanged, w.handle);
      }
      if HasNotice(a, Writable, w.handle) {
        KeepsNotice(a, b, Writable, w.handle);
      }
      SteadyFlows(p.flows, q.flows, w);
      hide HasNotice, KeysOk;
    }
  }

  lemma SteadyFlows(f: Flows, g: Flows, w: Watch)
    requires FlowsSteady(f, g, w)
    ensures (forall s :: 0 <= s < MAXIMUM_FLOWS && Owns(f[s], w) ==> Handle(s, f[s]) == w.handle) ==>
            (forall s :: 0 <= s < MAXIMUM_FLOWS && Owns(g[s], w) ==> Handle(s, g[s]) == w.handle)
    ensures var s := w.handle % 16;
            IsCommitted(f[s]) && f[s].client == w.id && Handle(s, f[s]) == w.handle ==>
              IsCommitted(g[s]) && g[s].client == w.id && Handle(s, g[s]) == w.handle && g[s].writableWaiter == f[s].writableWaiter
  {
    var t := w.handle % 16;
    assert FlowSteady(f[t], g[t], w);
    forall s | 0 <= s < MAXIMUM_FLOWS && Owns(g[s], w) ensures Owns(f[s], w) && Handle(s, g[s]) == Handle(s, f[s]) {
      assert FlowSteady(f[s], g[s], w);
    }
  }

  /** Two live clients with the same slot are the same client. */
  lemma OneClientPerSlot(clients: Clients, a: ClientId, b: ClientId)
    requires IsClient(clients, a) && IsClient(clients, b) && a.slot == b.slot
    ensures a == b
  {
  }

  // ---------------------------------------------------------------------------------------------
  // Notices are never dropped

  lemma {:induction false} ThreeKeys(queue: seq<Entry>, handle: nat)
    requires KeysOk(queue, handle)
    ensures |queue| <= Count(queue, IsData) + Count(queue, HasKey(PolicyChanged, 0)) +
                       Count(queue, HasKey(Writable, handle)) + Count(queue, HasKey(FlowStateChanged, handle))
  {
    if queue != [] {
      assert KeyOk(queue[0], handle);
      assert KeysOk(queue[1..], handle) by {
        assert forall i :: 0 <= i < |queue[1..]| ==> queue[1..][i] == queue[i + 1];
      }
      ThreeKeys(queue[1..], handle);
    }
  }

  /** With one flow the ring holds at most ten entries, so it always has room. */
  lemma RoomInRing(c: Client, handle: nat)
    requires ClientOk(c) && KeysOk(c.queue, handle)
    ensures |c.queue| <= 10
  {
    ThreeKeys(c.queue, handle);
    CountFilter(c.queue);
    assert Count(c.queue, HasKey(PolicyChanged, 0)) <= 1;
    assert Count(c.queue, HasKey(Writable, handle)) <= 1;
    assert Count(c.queue, HasKey(FlowStateChanged, handle)) <= 1;
  }

  lemma {:induction false} CountFilter(queue: seq<Entry>)
    ensures Count(queue, IsData) == |Filter(queue, IsData)|
  {
    if queue != [] {
      CountFilter(queue[1..]);
    }
  }

  /** A pushed notice is queued, and no other notice leaves. */
  lemma PushedNotices(c: Client, record: CompletionRecord, handle: nat)
    requires ClientOk(c) && KeysOk(c.queue, handle) && KeyOk(Entry(record, NO_SLAB), handle)
    ensures KeysOk(PushControl(c.queue, record), handle)
    ensures HasNotice(PushControl(c.queue, record), record.kind, record.flow)
    ensures forall kind :: HasNotice(c.queue, kind, handle) ==> HasNotice(PushControl(c.queue, record), kind, handle)
  {
    RoomInRing(c, handle);
    var queue := c.queue;
    var pushed := PushControl(queue, record);
    var k := KeyIndex(queue, record, 0);
    if k < |queue| {
      assert Notice(pushed[k], record.kind, record.flow);
    } else {
      assert Notice(pushed[|queue|], record.kind, record.flow);
    }
    forall kind | HasNotice(queue, kind, handle) ensures HasNotice(pushed, kind, handle) {
      var i :| 0 <= i < |queue| && Notice(queue[i], kind, handle);
      assert Notice(pushed[i], kind, handle);
    }
  }

  lemma PushMine(p: Plane, w: Watch, record: CompletionRecord)
    requires Mine(p, w) && ClientOk(p.clients[w.id.slot]) && KeyOk(Entry(record, NO_SLAB), w.handle)
    ensures var q := p.(clients := EnqueueControl(p.clients, w.id, record));
            Mine(q, w) && HasNotice(MyQueue(q, w), record.kind, record.flow) &&
            forall kind :: HasNotice(MyQueue(p, w), kind, w.handle) ==> HasNotice(MyQueue(q, w), kind, w.handle)
  {
    PushedNotices(p.clients[w.id.slot], record, w.handle);
    hide PushControl, HasNotice, KeysOk;
  }

  lemma PushGood(p: Plane, w: Watch, record: CompletionRecord)
    requires ClientsOk(p.clients) && KeyOk(Entry(record, NO_SLAB), w.handle)
    ensures Good(p, p.(clients := EnqueueControl(p.clients, w.id, record)), w)
  {
    if Mine(p, w) {
      PushMine(p, w, record);
      hide EnqueueControl, HasNotice;
    }
  }

  /** A notice to another client. */
  lemma PushOther(p: Plane, w: Watch, other: ClientId, record: CompletionRecord)
    requires other != w.id
    ensures Good(p, p.(clients := EnqueueControl(p.clients, other, record)), w)
  {
    var q := p.(clients := EnqueueControl(p.clients, other, record));
    if Mine(p, w) {
      if IsClient(p.clients, other) && other.slot == w.id.slot {
        OneClientPerSlot(p.clients, other, w.id);
      }
      assert q.clients[w.id.slot] == p.clients[w.id.slot];
      SteadyGood(p, q, w);
    }
  }

  // ---------------------------------------------------------------------------------------------
  // Closing

  lemma RemovedControls(queue: seq<Entry>, handle: nat)
    ensures SameControls(queue, Filter(queue, NotDataOf(handle)))
  {
    forall e | !IsData(e) ensures e in queue <==> e in Filter(queue, NotDataOf(handle)) {
      if e in queue {
        FilterContains(queue, e, NotDataOf(handle));
      }
    }
    FilterMembers(queue, NotDataOf(handle));
  }

  /** The silent part of a close, for the watched flow. */
  lemma CloseQuietlyMine(p: Plane, w: Watch, slot: nat, reason: TerminalReason, now: int)
    requires Mine(p, w) && Sound(p) && slot < MAXIMUM_FLOWS && IsCommitted(p.flows[slot]) && p.flows[slot].client == w.id
    ensures Mine(CloseQuietly(p, slot, reason, now), w)
  {
    var q := CloseQuietly(p, slot, reason, now);
    RemovedControls(MyQueue(p, w), w.handle);
    KeepsKeys(MyQueue(p, w), MyQueue(q, w), w.handle);
    hide Sound, KeysOk, Quarantine, ReleaseEntries;
    forall s | 0 <= s < MAXIMUM_FLOWS && Owns(q.flows[s], w) ensures Handle(s, q.flows[s]) == w.handle {
      assert Owns(p.flows[s], w);
    }
  }

  /** Closing the watched flow tells its client. */
  lemma CloseWatched(p: Plane, w: Watch, slot: nat, reason: TerminalReason, now: int)
    requires Mine(p, w) && Sound(p) && slot < MAXIMUM_FLOWS && IsCommitted(p.flows[slot]) && p.flows[slot].client == w.id
    ensures var q := CloseSlot(p, slot, reason, now, true);
            Mine(q, w) && HasNotice(MyQueue(q, w), FlowStateChanged, w.handle)
  {
    var quiet := CloseQuietly(p, slot, reason, now);
    CloseQuietlyMine(p, w, slot, reason, now);
    CloseQuietlySound(p, slot, reason, now);
    assert Owns(p.flows[slot], w) && FlowOk(p.clients, p.flows[slot]);
    PushMine(quiet, w, ClosedRecord(slot, p.flows[slot], reason));
    assert CloseSlot(p, slot, reason, now, true)
        == quiet.(clients := EnqueueControl(quiet.clients, w.id, ClosedRecord(slot, p.flows[slot], reason))) by {
      hide Sound, Quarantine, ReleaseEntries, EnqueueControl, Filter;
    }
  }

  /** Closing any other flow leaves the watched client alone. */
  lemma CloseOther(p: Plane, w: Watch, slot: nat, reason: TerminalReason, now: int, notify: bool)
    requires Mine(p, w) && Sound(p) && slot < MAXIMUM_FLOWS && !(IsCommitted(p.flows[slot]) && p.flows[slot].client == w.id)
    ensures Good(p, CloseSlot(p, slot, reason, now, notify), w)
  {
    var f := p.flows[slot];
    var q := CloseSlot(p, slot, reason, now, notify);
    if IsCommitted(f) {
      assert FlowOk(p.clients, f);
      if f.client.slot == w.id.slot {
        OneClientPerSlot(p.clients, f.client, w.id);
      }
    }
    hide Sound, Quarantine, ReleaseEntries, PushControl, Filter;
    assert q.clients[w.id.slot] == p.clients[w.id.slot];
    SteadyGood(p, q, w);
  }

  lemma CloseGood(p: Plane, w: Watch, slot: nat, reason: TerminalReason, now: int, notify: bool)
    requires Sound(p) && slot < MAXIMUM_FLOWS
    requires IsCommitted(p.flows[slot]) && p.flows[slot].client == w.id ==> notify
    ensures Good(p, CloseSlot(p, slot, reason, now, notify), w)
  {
    hide Sound, CloseSlot;
    if Mine(p, w) {
      if IsCommitted(p.flows[slot]) && p.flows[slot].client == w.id {
        CloseWatched(p, w, slot, reason, now);
      } else {
        CloseOther(p, w, slot, reason, now, notify);
      }
    }
  }
}
