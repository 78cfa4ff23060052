/** How single operations move queued datagrams and tuples: the steps of the whole-run claims. */
module FlowPlaneHistory {
  import opened Counting
  import opened TunnelProtocol
  import opened Routing
  import opened FlowPlane
  import opened FlowPlaneInvariant
  import opened FlowPlaneQueues
  import opened FlowPlaneClosing
  import opened FlowPlaneOperations
  import opened FlowPlaneDelivery

  /** The payloads that a list of queued datagrams stands for, in order. */
  function Payloads(slabs: Slabs, queue: seq<Entry>): seq<seq<Byte>> {
    if queue == [] then [] else [PayloadOf(slabs, queue[0])] + Payloads(slabs, queue[1..])
  }

  /** The datagrams queued for the flow in a slot. */
  function QueuedFor(p: Plane, slot: nat): seq<seq<Byte>>
    requires slot < MAXIMUM_FLOWS
  {
    var f := p.flows[slot];
    if f.client.slot >= MAXIMUM_CLIENT_CONTEXTS then []
    else Payloads(p.slabs, Filter(DataQueue(p.clients[f.client.slot]), OfFlow(Handle(slot, f))))
  }

  lemma {:induction false} PayloadsAppend(slabs: Slabs, a: seq<Entry>, b: seq<Entry>)
    ensures Payloads(slabs, a + b) == Payloads(slabs, a) + Payloads(slabs, b)
  {
    if a == [] {
      assert a + b == b;
    } else {
      assert (a + b)[1..] == a[1..] + b;
      PayloadsAppend(slabs, a[1..], b);
    }
  }

  lemma PayloadsSnoc(slabs: Slabs, queue: seq<Entry>, e: Entry)
    ensures Payloads(slabs, queue + [e]) == Payloads(slabs, queue) + [PayloadOf(slabs, e)]
  {
    PayloadsAppend(slabs, queue, [e]);
  }

  lemma {:induction false} PayloadsSame(a: Slabs, b: Slabs, queue: seq<Entry>)
    requires forall e :: e in queue ==> PayloadOf(a, e) == PayloadOf(b, e)
    ensures Payloads(a, queue) == Payloads(b, queue)
  {
    if queue != [] {
      PayloadsSame(a, b, queue[1..]);
    }
  }

  // ---------------------------------------------------------------------------------------------
  // Operations that only close

  /** Flows are at most closed, and every flow still open keeps its queued datagrams. */
  ghost predicate Calm(p: Plane, q: Plane) {
    forall s :: 0 <= s < MAXIMUM_FLOWS ==> CalmAt(p, q, s)
  }

  predicate CalmAt(p: Plane, q: Plane, s: nat)
    requires s < MAXIMUM_FLOWS
  {
    (IsLive(q.flows[s]) ==> IsLive(p.flows[s]) && q.flows[s].pending == p.flows[s].pending) &&
    (IsCommitted(q.flows[s]) ==> QueuedFor(q, s) == QueuedFor(p, s))
  }

  function TombstoneOf(f: Flow, now: int): Tombstone {
    Tombstone(true, f.source, f.port, f.remote, now + QUARANTINE_NS)
  }

  /** Unexpired tombstones stay, and each committed flow closed on the way left one. */
  ghost predicate Recorded(p: Plane, q: Plane, now: int) {
    (forall t :: t in p.tombstones && t.occupied && t.expiresAt > now ==> t in q.tombstones) &&
    (forall s :: 0 <= s < MAXIMUM_FLOWS && IsCommitted(p.flows[s]) && !IsLive(q.flows[s]) ==>
       TombstoneOf(p.flows[s], now) in q.tombstones)
  }

  /** Recorded, with the tuples of the flows still live unchanged. */
  ghost predicate Quarantined(p: Plane, q: Plane, now: int) {
    Recorded(p, q, now) &&
    (forall s :: 0 <= s < MAXIMUM_FLOWS && IsLive(q.flows[s]) ==>
       q.flows[s].source == p.flows[s].source && q.flows[s].port == p.flows[s].port && q.flows[s].remote == p.flows[s].remote)
  }

  /** No datagram of one flow shares a slab with a datagram of another. */
  lemma SlabNotShared(p: Plane, c: nat, handle: nat, d: nat, e: Entry)
    requires SlabsOk(p.clients, p.slabs) && c < MAXIMUM_CLIENT_CONTEXTS && d < MAXIMUM_CLIENT_CONTEXTS
    requires e in DataQueue(p.clients[d]) && (d != c || e.record.flow != handle) && e.slab < INBOUND_SLAB_COUNT
    ensures Count(Filter(DataQueue(p.clients[c]), OfFlow(handle)), HasSlab(e.slab)) == 0
  {
    hide Named, Count, Filter;
    var data := DataQueue(p.clients[c]);
    assert Named(p.clients, e.slab) == Tally(p.slabs[e.slab].inUse);
    CountSplit(data, OfFlow(handle), NotOfFlow(handle), HasSlab(e.slab));
    if d == c {
      FilterContains(data, e, NotOfFlow(handle));
      CountMember(Filter(data, NotOfFlow(handle)), e, HasSlab(e.slab));
      NamedPair(p.clients, c, if c == 0 then 1 else 0, e.slab);
    } else {
      CountMember(DataQueue(p.clients[d]), e, HasSlab(e.slab));
      NamedPair(p.clients, c, d, e.slab);
    }
  }

  /** So it keeps its payload when the other flow's datagrams are released. */
  lemma KeptSlab(p: Plane, c: nat, handle: nat, d: nat, e: Entry)
    requires SlabsOk(p.clients, p.slabs) && c < MAXIMUM_CLIENT_CONTEXTS && d < MAXIMUM_CLIENT_CONTEXTS
    requires e in DataQueue(p.clients[d]) && (d != c || e.record.flow != handle)
    ensures PayloadOf(ReleaseEntries(p.slabs, p.clients[c].queue, DataOf(handle)), e) == PayloadOf(p.slabs, e)
  {
    if e.slab < INBOUND_SLAB_COUNT {
      SlabNotShared(p, c, handle, d, e);
      RemovedData(p.clients[c].queue, handle);
      ReleasedAt(p.slabs, p.clients[c].queue, DataOf(handle), e.slab);
    }
  }

  lemma RemoveKeepsQueued(p: Plane, slot: nat, reason: TerminalReason, now: int, s: nat)
    requires Sound(p) && slot < MAXIMUM_FLOWS && IsCommitted(p.flows[slot])
    requires s < MAXIMUM_FLOWS && s != slot && IsCommitted(p.flows[s])
    requires p.flows[slot].client.slot < MAXIMUM_CLIENT_CONTEXTS
    ensures QueuedFor(CloseQuietly(p, slot, reason, now), s) == QueuedFor(p, s)
  {
    var f, g := p.flows[slot], p.flows[s];
    var h := Handle(slot, f);
    var q := CloseQuietly(p, slot, reason, now);
    assert FlowOk(p.clients, g);
    HandlesDiffer(slot, f, s, g);
    var c, d := f.client.slot, g.client.slot;
    var mine := Filter(DataQueue(p.clients[d]), OfFlow(Handle(s, g)));
    RemovedData(p.clients[c].queue, h);
    FilterTwice(DataQueue(p.clients[c]), NotOfFlow(h), OfFlow(Handle(s, g)), OfFlow(Handle(s, g)));
    FilterMembers(DataQueue(p.clients[d]), OfFlow(Handle(s, g)));
    forall e | e in mine ensures PayloadOf(q.slabs, e) == PayloadOf(p.slabs, e) {
      KeptSlab(p, c, h, d, e);
    }
    PayloadsSame(p.slabs, q.slabs, mine);
  }

  lemma SameOwnersQueued(p: Plane, clients: Clients, s: nat)
    requires SameOwners(p.clients, clients) && s < MAXIMUM_FLOWS
    ensures QueuedFor(p.(clients := clients), s) == QueuedFor(p, s)
  {
  }

  lemma CloseSlotCalm(p: Plane, slot: nat, reason: TerminalReason, now: int, notify: bool)
    requires Sound(p) && slot < MAXIMUM_FLOWS
    ensures Calm(p, CloseSlot(p, slot, reason, now, notify))
  {
    var f := p.flows[slot];
    var r := CloseSlot(p, slot, reason, now, notify);
    CloseSlotFrame(p, slot, reason, now, notify);
    if IsCommitted(f) {
      CloseQuietlySound(p, slot, reason, now);
      assert FlowOk(p.clients, f);
      var q := CloseQuietly(p, slot, reason, now);
      EnqueueControlOk(q.clients, f.client, ClosedRecord(slot, f, reason));
      forall s | 0 <= s < MAXIMUM_FLOWS ensures CalmAt(p, r, s) {
        if IsCommitted(r.flows[s]) {
          RemoveKeepsQueued(p, slot, reason, now, s);
          SameOwnersQueued(q, r.clients, s);
        }
      }
    }
  }

  lemma CloseSlotQuarantined(p: Plane, slot: nat, reason: TerminalReason, now: int, notify: bool)
    requires Sound(p) && slot < MAXIMUM_FLOWS
    ensures Quarantined(p, CloseSlot(p, slot, reason, now, notify), now)
  {
    var f := p.flows[slot];
    ClosedTombstones(p, slot, reason, now, notify);
    var r := CloseSlot(p, slot, reason, now, notify);
    if IsCommitted(f) {
      assert FlowOk(p.clients, f);
      QuarantineRecords(p.flows, p.tombstones, slot, now);
      QuarantineKeeps(p.tombstones, f, now);
    }
    hide Sound, CloseSlot, Quarantine, FreeTombstone, ClearExpired;
    forall s | 0 <= s < MAXIMUM_FLOWS && IsCommitted(p.flows[s]) && !IsLive(r.flows[s])
      ensures TombstoneOf(p.flows[s], now) in r.tombstones
    {
      assert s == slot;
    }
  }

  /** What a close does to tombstones and to the tuples of live flows. */
  lemma ClosedTombstones(p: Plane, slot: nat, reason: TerminalReason, now: int, notify: bool)
    requires slot < MAXIMUM_FLOWS
    ensures var r := CloseSlot(p, slot, reason, now, notify);
            r.tombstones == (if IsCommitted(p.flows[slot]) then Quarantine(p.tombstones, p.flows[slot], now) else p.tombstones) &&
            !IsLive(r.flows[slot]) && forall s :: 0 <= s < MAXIMUM_FLOWS && s != slot ==> r.flows[s] == p.flows[s]
  {
    hide RemoveFlowCompletions, Quarantine, EnqueueControl, ClosedRecord;
  }

  /** Recording a tuple keeps the unexpired tombstones. */
  lemma QuarantineKeeps(tombstones: Tombstones, f: Flow, now: int)
    requires f.port != 0 && FreeTombstone(ClearExpired(tombstones, now), 0) < TOMBSTONE_CAPACITY
    ensures var after := Quarantine(tombstones, f, now);
            TombstoneOf(f, now) in after &&
            forall t :: t in tombstones && t.occupied && t.expiresAt > now ==> t in after
  {
    var cleared := ClearExpired(tombstones, now);
    var i := FreeTombstone(cleared, 0);
    hide FreeTombstone;
    var after := Quarantine(tombstones, f, now);
    assert after[i] == TombstoneOf(f, now);
    forall t | t in tombstones && t.occupied && t.expiresAt > now ensures t in after {
      var k :| 0 <= k < TOMBSTONE_CAPACITY && tombstones[k] == t;
      assert cleared[k] == t && after[k] == t;
    }
  }

  /** Calm and quarantined in one relation, which composes at a fixed time. */
  ghost predicate Shrinks(p: Plane, q: Plane, now: int) {
    Calm(p, q) && Quarantined(p, q, now)
  }

  lemma CloseSlotShrinks(p: Plane, slot: nat, reason: TerminalReason, now: int, notify: bool)
    requires Sound(p) && slot < MAXIMUM_FLOWS
    ensures Shrinks(p, CloseSlot(p, slot, reason, now, notify), now)
  {
    CloseSlotCalm(p, slot, reason, now, notify);
    CloseSlotQuarantined(p, slot, reason, now, notify);
  }

  lemma ShrinksReflexive(p: Plane, now: int)
    ensures Shrinks(p, p, now)
  {
    forall s | 0 <= s < MAXIMUM_FLOWS ensures CalmAt(p, p, s) {
    }
  }

  lemma ShrinksTransitive(p: Plane, q: Plane, r: Plane, now: int)
    requires Shrinks(p, q, now) && Shrinks(q, r, now)
    ensures Shrinks(p, r, now)
  {
    forall s | 0 <= s < MAXIMUM_FLOWS ensures CalmAt(p, r, s) {
      assert CalmAt(p, q, s) && CalmAt(q, r, s);
    }
    forall s | 0 <= s < MAXIMUM_FLOWS && IsCommitted(p.flows[s]) && !IsLive(r.flows[s])
      ensures TombstoneOf(p.flows[s], now) in r.tombstones
    {
      assert CalmAt(p, q, s);
      var t := TombstoneOf(p.flows[s], now);
      if IsLive(q.flows[s]) {
        assert TombstoneOf(q.flows[s], now) == t;
      } else {
        assert t in q.tombstones;
      }
    }
    forall s | 0 <= s < MAXIMUM_FLOWS && IsLive(r.flows[s])
      ensures r.flows[s].source == p.flows[s].source && r.flows[s].port == p.flows[s].port && r.flows[s].remote == p.flows[s].remote
    {
      assert CalmAt(q, r, s);
    }
  }

  lemma {:induction false} InvalidateShrinks(p: Plane, slot: nat, peer: PeerIdentity, reason: TerminalReason, now: int)
    requires Invariant(p) && slot <= MAXIMUM_FLOWS
    ensures Shrinks(p, InvalidateFrom(p, slot, peer, reason, now), now)
    decreases MAXIMUM_FLOWS - slot
  {
    hide Sound, PolicyOk, Shrinks, CloseSlot, ApplyPolicyAt;
    ShrinksReflexive(p, now);
    if slot < MAXIMUM_FLOWS {
      if IsCommitted(p.flows[slot]) && p.flows[slot].peer == peer {
        var next := CloseSlot(p, slot, reason, now, true);
        CloseSlotInvariant(p, slot, reason, now, true);
        CloseSlotShrinks(p, slot, reason, now, true);
        InvalidateShrinks(next, slot + 1, peer, reason, now);
        ShrinksTransitive(p, next, InvalidateFrom(next, slot + 1, peer, reason, now), now);
      } else {
        InvalidateShrinks(p, slot + 1, peer, reason, now);
      }
    }
  }

  lemma {:induction false} CloseOwnedShrinks(p: Plane, slot: nat, id: ClientId, now: int)
    requires Sound(p) && slot <= MAXIMUM_FLOWS
    ensures Shrinks(p, CloseOwnedFrom(p, slot, id, now), now)
    decreases MAXIMUM_FLOWS - slot
  {
    hide Sound, PolicyOk, Shrinks, CloseSlot, ApplyPolicyAt;
    ShrinksReflexive(p, now);
    if slot < MAXIMUM_FLOWS {
      if p.flows[slot].inUse && p.flows[slot].client == id {
        var next := CloseSlot(p, slot, ClientClosed, now, false);
        CloseSlotSound(p, slot, ClientClosed, now, false);
        CloseSlotShrinks(p, slot, ClientClosed, now, false);
        CloseOwnedShrinks(next, slot + 1, id, now);
        ShrinksTransitive(p, next, CloseOwnedFrom(next, slot + 1, id, now), now);
      } else {
        CloseOwnedShrinks(p, slot + 1, id, now);
      }
    }
  }

  lemma DestroyClientShrinks(p: Plane, id: ClientId, now: int)
    requires Invariant(p)
    ensures Shrinks(p, DestroyClient(p, id, now), now)
  {
    hide Sound, PolicyOk, Shrinks, CloseOwnedFrom;
    ShrinksReflexive(p, now);
    if IsClient(p.clients, id) {
      var closed := CloseOwnedFrom(p, 0, id, now);
      var q := DestroyClient(p, id, now);
      CloseOwnedInvariant(p, 0, id, now);
      CloseOwnedShrinks(p, 0, id, now);
      DropClientInvariant(closed, id);
      ReleaseControlsOnly(closed.slabs, closed.clients[id.slot].queue, Anything());
      DropClientShrinks(closed, id, now);
      ShrinksTransitive(p, closed, q, now);
    }
  }

  /** A client slot without queued datagrams can be emptied unseen. */
  lemma DropClientShrinks(p: Plane, id: ClientId, now: int)
    requires IsClient(p.clients, id) && DataQueue(p.clients[id.slot]) == []
    ensures Shrinks(p, p.(clients := p.clients[id.slot := FREE_CLIENT]), now)
  {
    var q := p.(clients := p.clients[id.slot := FREE_CLIENT]);
    assert DataQueue(FREE_CLIENT) == [];
    forall s | 0 <= s < MAXIMUM_FLOWS ensures CalmAt(p, q, s) {
      assert forall c :: 0 <= c < MAXIMUM_CLIENT_CONTEXTS ==> DataQueue(q.clients[c]) == DataQueue(p.clients[c]);
    }
  }

  /** A flow whose handle and owner stay keeps its queued datagrams. */
  lemma TouchShrinks(p: Plane, slot: nat, g: Flow, now: int)
    requires slot < MAXIMUM_FLOWS && Touched(p.flows[slot], g)
    ensures Shrinks(p, p.(flows := p.flows[slot := g]), now)
  {
    var q := p.(flows := p.flows[slot := g]);
    assert Handle(slot, g) == Handle(slot, p.flows[slot]);
    forall s | 0 <= s < MAXIMUM_FLOWS ensures CalmAt(p, q, s) {
    }
  }

  lemma ClientsShrinks(p: Plane, clients: Clients, now: int)
    requires SameOwners(p.clients, clients)
    ensures Shrinks(p, p.(clients := clients), now)
  {
    var q := p.(clients := clients);
    forall s | 0 <= s < MAXIMUM_FLOWS ensures CalmAt(p, q, s) {
      SameOwnersQueued(p, clients, s);
    }
  }

  lemma ApplyPolicyAtShrinks(p: Plane, slot: nat, now: int)
    requires Sound(p) && slot < MAXIMUM_FLOWS
    ensures Shrinks(p, ApplyPolicyAt(p, slot, now), now)
  {
    CloseSlotShrinks(p, slot, PolicyInvalidated, now, true);
    TouchShrinks(p, slot, p.flows[slot].(policyGeneration := p.policyGeneration), now);
    TouchShrinks(p, slot, p.flows[slot], now);
    assert p.flows[slot := p.flows[slot]] == p.flows;
  }

  lemma {:induction false} ApplyPolicyShrinks(p: Plane, slot: nat, now: int)
    requires Sound(p) && slot <= MAXIMUM_FLOWS
    ensures Shrinks(p, ApplyPolicyFrom(p, slot, now), now)
    decreases MAXIMUM_FLOWS - slot
  {
    hide Sound, PolicyOk, Shrinks, CloseSlot, ApplyPolicyAt;
    ShrinksReflexive(p, now);
    if slot < MAXIMUM_FLOWS {
      var next := ApplyPolicyAt(p, slot, now);
      ApplyPolicyAtSound(p, slot, now);
      ApplyPolicyAtShrinks(p, slot, now);
      ApplyPolicyShrinks(next, slot + 1, now);
      ShrinksTransitive(p, next, ApplyPolicyFrom(next, slot + 1, now), now);
    }
  }

  lemma RefreshPolicyShrinks(p: Plane, input: PolicyInput, now: int)
    requires Invariant(p)
    ensures Shrinks(p, RefreshPolicy(p, input, now), now)
  {
    var policy := ResolvePolicy(input);
    if policy != p.policy {
      var renewed := p.(policy := policy, policyGeneration := p.nextPolicyGeneration,
                        nextPolicyGeneration := NextNonZero(p.nextPolicyGeneration));
      assert Sound(renewed);
      var applied := ApplyPolicyFrom(renewed, 0, now);
      var clients := AnnouncePolicyFrom(applied.clients, 0, applied.policyGeneration);
      ApplyPolicyInvariant(renewed, 0, now);
      ApplyPolicyShrinks(renewed, 0, now);
      AnnouncePolicyOk(applied.clients, 0, applied.policyGeneration);
      ClientsShrinks(applied, clients, now);
      ShrinksTransitive(renewed, applied, applied.(clients := clients), now);
      assert RefreshPolicy(p, input, now) == applied.(clients := clients);
      ShrinksFromRenewed(p, renewed, applied.(clients := clients), now);
    }
  }

  /** Renewing the policy fields alone is invisible to queued datagrams and tombstones. */
  lemma ShrinksFromRenewed(p: Plane, renewed: Plane, q: Plane, now: int)
    requires renewed.clients == p.clients && renewed.flows == p.flows && renewed.slabs == p.slabs &&
             renewed.tombstones == p.tombstones
    requires Shrinks(renewed, q, now)
    ensures Shrinks(p, q, now)
  {
    forall s | 0 <= s < MAXIMUM_FLOWS ensures CalmAt(p, q, s) {
      assert CalmAt(renewed, q, s);
    }
  }

  lemma {:induction false} NotifyCapacityShrinks(p: Plane, slot: nat, peer: PeerIdentity, now: int)
    requires Invariant(p) && slot <= MAXIMUM_FLOWS
    ensures Shrinks(p, NotifyCapacityFrom(p, slot, peer), now)
    decreases MAXIMUM_FLOWS - slot
  {
    hide PolicyOk, Shrinks, EnqueueControl, FlowsOk, OwnersOk, OccupanciesOk, SlabsOk, TuplesOk;
    ShrinksReflexive(p, now);
    if slot < MAXIMUM_FLOWS {
      var f := p.flows[slot];
      if AwaitsCapacity(f, peer) {
        var quiet := SetWaiter(p, slot, false);
        var clients := EnqueueControl(p.clients, f.client, WritableRecord(slot, f));
        var next := quiet.(clients := clients);
        SetWaiterInvariant(p, slot, false);
        EnqueueControlOk(p.clients, f.client, WritableRecord(slot, f));
        ReplaceClientsInvariant(quiet, clients);
        TouchShrinks(p, slot, f.(writableWaiter := false), now);
        ClientsShrinks(quiet, clients, now);
        ShrinksTransitive(p, quiet, next, now);
        NotifyCapacityShrinks(next, slot + 1, peer, now);
        ShrinksTransitive(p, next, NotifyCapacityFrom(next, slot + 1, peer), now);
      } else {
        NotifyCapacityShrinks(p, slot + 1, peer, now);
      }
    }
  }

  // ---------------------------------------------------------------------------------------------
  // Storing and draining

  /** A queued datagram never names a free slab. */
  lemma FreeSlabNotQueued(clients: Clients, slabs: Slabs, slab: nat, c: nat, e: Entry)
    requires SlabsOk(clients, slabs) && slab < INBOUND_SLAB_COUNT && !slabs[slab].inUse
    requires c < MAXIMUM_CLIENT_CONTEXTS && e in DataQueue(clients[c])
    ensures e.slab != slab
  {
    assert Named(clients, slab) == 0;
    NamedPart(clients, slab, c);
    hide Named, SlabsOk, DataQueue, Count;
    if e.slab == slab {
      CountMember(DataQueue(clients[c]), e, HasSlab(slab));
    }
  }

  lemma NamedPart(clients: Clients, slab: nat, c: nat)
    requires c < MAXIMUM_CLIENT_CONTEXTS
    ensures Count(DataQueue(clients[c]), HasSlab(slab)) <= Named(clients, slab)
  {
    hide Count, DataQueue;
  }

  /** Writing a free slab leaves the datagrams of every client alone. */
  lemma FreeSlabWrite(p: Plane, slab: nat, content: Slab, queue: seq<Entry>, c: nat)
    requires SlabsOk(p.clients, p.slabs) && slab < INBOUND_SLAB_COUNT && !p.slabs[slab].inUse
    requires c < MAXIMUM_CLIENT_CONTEXTS && forall e :: e in queue ==> e in DataQueue(p.clients[c])
    ensures Payloads(p.slabs[slab := content], queue) == Payloads(p.slabs, queue)
  {
    forall e | e in queue ensures PayloadOf(p.slabs[slab := content], e) == PayloadOf(p.slabs, e) {
      FreeSlabNotQueued(p.clients, p.slabs, slab, c, e);
    }
    PayloadsSame(p.slabs, p.slabs[slab := content], queue);
  }

  /** The list of a flow's queued entries after a store. */
  lemma StoreEntries(p: Plane, slot: nat, slab: nat, payload: seq<Byte>, s: nat)
    requires Invariant(p) && CanStore(p, slot, slab, payload) && s < MAXIMUM_FLOWS && IsCommitted(p.flows[s])
    requires p.flows[s].client.slot < MAXIMUM_CLIENT_CONTEXTS
    ensures var d, h := p.flows[s].client.slot, Handle(s, p.flows[s]);
            Filter(DataQueue(StoreDatagram(p, slot, slab, payload).clients[d]), OfFlow(h)) ==
            Filter(DataQueue(p.clients[d]), OfFlow(h)) + (if s == slot then [StoredEntry(p, slot, slab, payload)] else [])
  {
    var d, h := p.flows[s].client.slot, Handle(s, p.flows[s]);
    var e := StoredEntry(p, slot, slab, payload);
    StoreClient(p, slot, slab, payload);
    FilterAppend(DataQueue(p.clients[d]), [e], OfFlow(h));
    if s != slot {
      HandlesDiffer(slot, p.flows[slot], s, p.flows[s]);
    }
    assert Filter([e], OfFlow(h)) == if s == slot then [e] else [];
  }

  /** Storing appends the payload to its own flow's queue and touches no other. */
  lemma StoreQueued(p: Plane, slot: nat, slab: nat, payload: seq<Byte>, s: nat)
    requires Invariant(p) && CanStore(p, slot, slab, payload) && s < MAXIMUM_FLOWS && IsCommitted(p.flows[s])
    ensures QueuedFor(StoreDatagram(p, slot, slab, payload), s) == QueuedFor(p, s) + (if s == slot then [payload] else [])
  {
    hide Invariant, Filter, DataQueue, Handle, StoreDatagram, OfFlow, SlabsOk;
    var q := StoreDatagram(p, slot, slab, payload);
    var d, h := p.flows[s].client.slot, Handle(s, p.flows[s]);
    CommittedOwner(p, s);
    StoredOwner(p, slot, slab, payload, s);
    StoreEntries(p, slot, slab, payload, s);
    var before := Filter(DataQueue(p.clients[d]), OfFlow(h));
    QueuedStays(p, slab, Slab(true, payload), d, h);
    var e := StoredEntry(p, slot, slab, payload);
    PayloadsSnoc(q.slabs, before, e);
    StoredPayload(p, slot, slab, payload);
    assert before + [] == before && QueuedFor(p, s) + [] == QueuedFor(p, s);
  }

  lemma CommittedOwner(p: Plane, s: nat)
    requires Invariant(p) && s < MAXIMUM_FLOWS && IsCommitted(p.flows[s])
    ensures p.flows[s].client.slot < MAXIMUM_CLIENT_CONTEXTS && SlabsOk(p.clients, p.slabs)
  {
    assert FlowOk(p.clients, p.flows[s]);
  }

  /** Writing a free slab leaves what a flow has queued. */
  lemma QueuedStays(p: Plane, slab: nat, content: Slab, d: nat, handle: nat)
    requires SlabsOk(p.clients, p.slabs) && slab < INBOUND_SLAB_COUNT && !p.slabs[slab].inUse && d < MAXIMUM_CLIENT_CONTEXTS
    ensures var queued := Filter(DataQueue(p.clients[d]), OfFlow(handle));
            Payloads(p.slabs[slab := content], queued) == Payloads(p.slabs, queued)
  {
    FilterMembers(DataQueue(p.clients[d]), OfFlow(handle));
    FreeSlabWrite(p, slab, content, Filter(DataQueue(p.clients[d]), OfFlow(handle)), d);
  }

  lemma StoredOwner(p: Plane, slot: nat, slab: nat, payload: seq<Byte>, s: nat)
    requires CanStore(p, slot, slab, payload) && s < MAXIMUM_FLOWS
    ensures var q := StoreDatagram(p, slot, slab, payload);
            Handle(s, q.flows[s]) == Handle(s, p.flows[s]) && q.flows[s].client == p.flows[s].client &&
            q.slabs == p.slabs[slab := Slab(true, payload)] && !p.slabs[slab].inUse
  {
  }

  lemma StoredPayload(p: Plane, slot: nat, slab: nat, payload: seq<Byte>)
    requires CanStore(p, slot, slab, payload)
    ensures PayloadOf(StoreDatagram(p, slot, slab, payload).slabs, StoredEntry(p, slot, slab, payload)) == payload
  {
  }

  /** Popping a datagram takes the head of its own flow's queue and touches no other. */
  lemma PopQueued(p: Plane, id: ClientId, s: nat)
    requires Invariant(p) && IsClient(p.clients, id) && p.clients[id.slot].queue != []
    requires s < MAXIMUM_FLOWS && IsCommitted(p.flows[s])
    ensures var e := p.clients[id.slot].queue[0];
            QueuedFor(p, s) ==
            (if IsData(e) && e.record.flow == Handle(s, p.flows[s]) then [PayloadOf(p.slabs, e)] else []) + QueuedFor(PopFront(p, id), s)
  {
    hide Invariant, Handle, PopFront, QueuedFor, PayloadOf;
    if IsData(p.clients[id.slot].queue[0]) {
      PopDatagramQueued(p, id, s);
    } else {
      PopControlQueued(p, id, s);
      assert [] + QueuedFor(PopFront(p, id), s) == QueuedFor(PopFront(p, id), s);
    }
  }

  lemma PopControlQueued(p: Plane, id: ClientId, s: nat)
    requires IsClient(p.clients, id) && p.clients[id.slot].queue != [] && !IsData(p.clients[id.slot].queue[0])
    requires s < MAXIMUM_FLOWS
    ensures QueuedFor(PopFront(p, id), s) == QueuedFor(p, s)
  {
    PopData(p.clients[id.slot].queue);
    hide Filter, Handle;
  }

  lemma PopDatagramQueued(p: Plane, id: ClientId, s: nat)
    requires Invariant(p) && IsClient(p.clients, id) && p.clients[id.slot].queue != [] && IsData(p.clients[id.slot].queue[0])
    requires s < MAXIMUM_FLOWS && IsCommitted(p.flows[s])
    ensures var e := p.clients[id.slot].queue[0];
            QueuedFor(p, s) ==
            (if e.record.flow == Handle(s, p.flows[s]) then [PayloadOf(p.slabs, e)] else []) + QueuedFor(PopFront(p, id), s)
  {
    var q := PopFront(p, id);
    var e := p.clients[id.slot].queue[0];
    var g := p.flows[s];
    var h, d := Handle(s, g), g.client.slot;
    assert FlowOk(p.clients, g);
    FrontOwner(p, id);
    PopKeepsOwner(p, id, s);
    PoppedData(p, id, d);
    HandleSlot(s, g);
    var before, mine := Filter(DataQueue(p.clients[d]), OfFlow(h)), Filter(DataQueue(q.clients[d]), OfFlow(h));
    assert (e.record.flow == h ==> d == id.slot) && e.slab < INBOUND_SLAB_COUNT;
    assert QueuedFor(q, s) == Payloads(q.slabs, mine) && QueuedFor(p, s) == Payloads(p.slabs, before);
    hide Invariant, Handle, FindFlow, PopFront, QueuedFor, DataQueue, IsClient;
    FilterMembers(DataQueue(q.clients[d]), OfFlow(h));
    forall x | x in mine ensures PayloadOf(q.slabs, x) == PayloadOf(p.slabs, x) {
      PoppedSlabFresh(p, id, d, x);
      ReleasedElsewhere(p, id, x);
    }
    PayloadsSame(p.slabs, q.slabs, mine);
    FrontFiltered(p.slabs, e, DataQueue(p.clients[d]), DataQueue(q.clients[d]), h);
  }

  /** Popping changes no flow's client or handle. */
  lemma PopKeepsOwner(p: Plane, id: ClientId, s: nat)
    requires IsClient(p.clients, id) && p.clients[id.slot].queue != [] && s < MAXIMUM_FLOWS
    ensures var f := PopFront(p, id).flows[s];
            f.client == p.flows[s].client && Handle(s, f) == Handle(s, p.flows[s])
  {
    hide FindFlow;
  }

  lemma PoppedData(p: Plane, id: ClientId, d: nat)
    requires IsClient(p.clients, id) && p.clients[id.slot].queue != [] && IsData(p.clients[id.slot].queue[0])
    requires d < MAXIMUM_CLIENT_CONTEXTS
    ensures var data := DataQueue(p.clients[d]);
            DataQueue(PopFront(p, id).clients[d]) == (if d == id.slot then data[1..] else data) &&
            (d == id.slot ==> data != [] && data[0] == p.clients[id.slot].queue[0])
  {
    PopData(p.clients[id.slot].queue);
    hide FindFlow;
  }

  /** The payload of an entry that does not name the popped slab stays. */
  lemma ReleasedElsewhere(p: Plane, id: ClientId, x: Entry)
    requires IsClient(p.clients, id) && p.clients[id.slot].queue != [] && IsData(p.clients[id.slot].queue[0])
    requires x.slab != p.clients[id.slot].queue[0].slab
    ensures PayloadOf(PopFront(p, id).slabs, x) == PayloadOf(p.slabs, x)
  {
    hide FindFlow;
  }

  /** The front datagram is the first of its flow's payloads. */
  lemma FrontFiltered(slabs: Slabs, e: Entry, data: seq<Entry>, rest: seq<Entry>, h: nat)
    requires (rest == data && e.record.flow != h) || (data != [] && data[0] == e && rest == data[1..])
    ensures Payloads(slabs, Filter(data, OfFlow(h))) ==
            (if e.record.flow == h then [PayloadOf(slabs, e)] else []) + Payloads(slabs, Filter(rest, OfFlow(h)))
  {
    var mine := Filter(rest, OfFlow(h));
    assert ([e] + mine)[1..] == mine;
  }

  /** The popped datagram's slab is named by no datagram that stays. */
  lemma PoppedSlabFresh(p: Plane, id: ClientId, d: nat, x: Entry)
    requires Invariant(p) && IsClient(p.clients, id) && p.clients[id.slot].queue != [] && IsData(p.clients[id.slot].queue[0])
    requires d < MAXIMUM_CLIENT_CONTEXTS && x in DataQueue(PopFront(p, id).clients[d])
    ensures x.slab != p.clients[id.slot].queue[0].slab
  {
    var q := PopFront(p, id);
    FrontOwner(p, id);
    PopSlabs(p, id);
    FreeSlabNotQueued(q.clients, q.slabs, p.clients[id.slot].queue[0].slab, d, x);
  }
}
