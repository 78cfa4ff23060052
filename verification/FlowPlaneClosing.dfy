/** Closing a flow, the operation every other one falls back on, keeps the plane sound. */
module FlowPlaneClosing {
  import opened Counting
  import opened TunnelProtocol
  import opened FlowPlane
  import opened FlowPlaneInvariant
  import opened FlowPlaneQueues

  function ClosedFlow(f: Flow, reason: TerminalReason): Flow {
    f.(closed := true, reason := reason, occupancy := 0)
  }

  lemma HandlesDiffer(a: nat, f: Flow, b: nat, g: Flow)
    requires a < 16 && b < 16 && a != b
    ensures Handle(a, f) != Handle(b, g)
  {
    HandleSlot(a, f);
    HandleSlot(b, g);
  }

  /** Changing one flow slot of a table. */
  lemma FlowsUpdate(clients: Clients, flows: Flows, slot: nat, f: Flow)
    requires slot < MAXIMUM_FLOWS && FlowsOk(clients, flows) && FlowOk(clients, f)
    ensures FlowsOk(clients, flows[slot := f])
  {
  }

  lemma SameClientsFlowsOk(a: Clients, b: Clients, flows: Flows)
    requires FlowsOk(a, flows)
    requires forall c :: 0 <= c < MAXIMUM_CLIENT_CONTEXTS ==> a[c].inUse == b[c].inUse && a[c].generation == b[c].generation
    ensures FlowsOk(b, flows)
  {
    forall s | 0 <= s < MAXIMUM_FLOWS ensures FlowOk(b, flows[s]) {
      assert FlowOk(a, flows[s]);
    }
  }

  lemma CloseKeepsOwners(p: Plane, slot: nat, reason: TerminalReason)
    requires slot < MAXIMUM_FLOWS && IsCommitted(p.flows[slot]) && FlowsOk(p.clients, p.flows) && OwnersOk(p.clients, p.flows)
    ensures var f := p.flows[slot];
            OwnersOk(RemoveFlowCompletions(p, f.client.slot, Handle(slot, f)).clients, p.flows[slot := ClosedFlow(f, reason)])
  {
    var f := p.flows[slot];
    var h := Handle(slot, f);
    var clients := RemoveFlowCompletions(p, f.client.slot, h).clients;
    var flows := p.flows[slot := ClosedFlow(f, reason)];
    assert FlowOk(p.clients, f);
    RemovedData(p.clients[f.client.slot].queue, h);
    FilterMembers(DataQueue(p.clients[f.client.slot]), NotOfFlow(h));
    forall c: nat, e | c < MAXIMUM_CLIENT_CONTEXTS && e in DataQueue(clients[c]) ensures Owned(clients, flows, c, e) {
      assert e in DataQueue(p.clients[c]) && Owned(p.clients, p.flows, c, e);
    }
  }

  lemma CloseKeepsOccupancies(p: Plane, slot: nat, reason: TerminalReason)
    requires slot < MAXIMUM_FLOWS && IsCommitted(p.flows[slot])
    requires FlowsOk(p.clients, p.flows) && OccupanciesOk(p.clients, p.flows)
    ensures var f := p.flows[slot];
            OccupanciesOk(RemoveFlowCompletions(p, f.client.slot, Handle(slot, f)).clients, p.flows[slot := ClosedFlow(f, reason)])
  {
    var f := p.flows[slot];
    var h := Handle(slot, f);
    var clients := RemoveFlowCompletions(p, f.client.slot, h).clients;
    assert FlowOk(p.clients, f);
    var data := DataQueue(p.clients[f.client.slot]);
    RemovedData(p.clients[f.client.slot].queue, h);
    forall s | 0 <= s < MAXIMUM_FLOWS && s != slot ensures OccupancyOk(clients, s, p.flows[s]) {
      var g := p.flows[s];
      HandlesDiffer(s, g, slot, f);
      CountThroughFilter(data, NotOfFlow(h), OfFlow(Handle(s, g)));
      assert OccupancyOk(p.clients, s, g);
    }
  }

  lemma ExpireFrees(tombstones: Tombstones, now: int)
    ensures Count(tombstones, IsFreeTombstone) <= Count(ClearExpired(tombstones, now), IsFreeTombstone)
  {
    CountMonotone(tombstones, ClearExpired(tombstones, now), IsFreeTombstone);
  }

  /** While free tombstones cover the live flows, a closing flow's tuple is always recorded. */
  lemma QuarantineRecords(flows: Flows, tombstones: Tombstones, slot: nat, now: int)
    requires slot < MAXIMUM_FLOWS && IsLive(flows[slot]) && flows[slot].port != 0 && TombstonesOk(flows, tombstones)
    ensures var i := FreeTombstone(ClearExpired(tombstones, now), 0);
            i < TOMBSTONE_CAPACITY &&
            Quarantine(tombstones, flows[slot], now) ==
              ClearExpired(tombstones, now)[i := Tombstone(true, flows[slot].source, flows[slot].port, flows[slot].remote, now + QUARANTINE_NS)]
  {
    var cleared := ClearExpired(tombstones, now);
    ExpireFrees(tombstones, now);
    CountHit(flows, slot, IsLive);
    var w := CountWitness(cleared, IsFreeTombstone);
  }

  lemma CloseKeepsTombstones(flows: Flows, tombstones: Tombstones, slot: nat, reason: TerminalReason, now: int)
    requires slot < MAXIMUM_FLOWS && IsLive(flows[slot]) && flows[slot].port != 0 && TombstonesOk(flows, tombstones)
    ensures TombstonesOk(flows[slot := ClosedFlow(flows[slot], reason)], Quarantine(tombstones, flows[slot], now))
  {
    var cleared := ClearExpired(tombstones, now);
    ExpireFrees(tombstones, now);
    QuarantineRecords(flows, tombstones, slot, now);
    var i := FreeTombstone(cleared, 0);
    CountUpdate(cleared, i, Quarantine(tombstones, flows[slot], now)[i], IsFreeTombstone);
    CountUpdate(flows, slot, ClosedFlow(flows[slot], reason), IsLive);
  }

  /** Dropping a pending flow: it holds no datagrams and needs no quarantine. */
  lemma DropPendingSound(p: Plane, slot: nat)
    requires Sound(p) && slot < MAXIMUM_FLOWS && IsLive(p.flows[slot]) && p.flows[slot].pending
    ensures Sound(p.(flows := p.flows[slot := FREE_FLOW]))
  {
    var flows := p.flows[slot := FREE_FLOW];
    FlowsUpdate(p.clients, p.flows, slot, FREE_FLOW);
    CountUpdate(p.flows, slot, FREE_FLOW, IsLive);
    forall c: nat, e | c < MAXIMUM_CLIENT_CONTEXTS && e in DataQueue(p.clients[c]) ensures Owned(p.clients, flows, c, e) {
      assert Owned(p.clients, p.flows, c, e);
    }
    forall s | 0 <= s < MAXIMUM_FLOWS ensures OccupancyOk(p.clients, s, flows[s]) {
      assert OccupancyOk(p.clients, s, p.flows[s]);
    }
  }

  /** The silent part of a close. */
  function CloseQuietly(p: Plane, slot: nat, reason: TerminalReason, now: int): Plane
    requires slot < MAXIMUM_FLOWS && p.flows[slot].client.slot < MAXIMUM_CLIENT_CONTEXTS
  {
    var f := p.flows[slot];
    RemoveFlowCompletions(p, f.client.slot, Handle(slot, f))
      .(tombstones := Quarantine(p.tombstones, f, now), flows := p.flows[slot := ClosedFlow(f, reason)])
  }

  lemma CloseQuietlySound(p: Plane, slot: nat, reason: TerminalReason, now: int)
    requires Sound(p) && slot < MAXIMUM_FLOWS && IsCommitted(p.flows[slot])
    ensures p.flows[slot].client.slot < MAXIMUM_CLIENT_CONTEXTS
    ensures Sound(CloseQuietly(p, slot, reason, now))
  {
    var f := p.flows[slot];
    var c := f.client.slot;
    assert FlowOk(p.clients, f);
    var q := CloseQuietly(p, slot, reason, now);
    RemoveKeepsClient(p, c, Handle(slot, f));
    RemoveKeepsSlabs(p, c, Handle(slot, f));
    CloseKeepsOwners(p, slot, reason);
    CloseKeepsOccupancies(p, slot, reason);
    CloseKeepsTombstones(p.flows, p.tombstones, slot, reason, now);
    FlowsUpdate(p.clients, p.flows, slot, ClosedFlow(f, reason));
    SameClientsFlowsOk(p.clients, q.clients, q.flows);
  }

  lemma CloseSlotSound(p: Plane, slot: nat, reason: TerminalReason, now: int, notify: bool)
    requires Sound(p) && slot < MAXIMUM_FLOWS
    ensures Sound(CloseSlot(p, slot, reason, now, notify))
  {
    var f := p.flows[slot];
    if IsLive(f) {
      if f.pending {
        DropPendingSound(p, slot);
      } else {
        CloseQuietlySound(p, slot, reason, now);
        var q := CloseQuietly(p, slot, reason, now);
        assert FlowOk(p.clients, f);
        if notify {
          EnqueueControlOk(q.clients, f.client, ClosedRecord(slot, f, reason));
          SameOwnersOk(q.clients, EnqueueControl(q.clients, f.client, ClosedRecord(slot, f, reason)), q.flows, q.slabs);
        }
      }
    }
  }
}
