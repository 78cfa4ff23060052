/** How the queue operations act on a client's queued datagrams, its keys and its slabs. */
module FlowPlaneQueues {
  import opened Counting
  import opened TunnelProtocol
  import opened FlowPlane
  import opened FlowPlaneInvariant

  // ---------------------------------------------------------------------------------------------
  // Control completions

  lemma PushControlKeepsData(queue: seq<Entry>, record: CompletionRecord)
    ensures Filter(PushControl(queue, record), IsData) == Filter(queue, IsData)
  {
    var i := KeyIndex(queue, record, 0);
    if i < |queue| {
      FilterSkip(queue, i, queue[i].(record := record), IsData);
    } else if |queue| < COMPLETION_QUEUE_CAPACITY {
      FilterAppend(queue, [Entry(record, NO_SLAB)], IsData);
    }
  }

  lemma PushControlKeepsKeys(queue: seq<Entry>, record: CompletionRecord, kind: CompletionType, flow: nat)
    requires Count(queue, HasKey(kind, flow)) <= 1
    ensures Count(PushControl(queue, record), HasKey(kind, flow)) <= 1
  {
    var i := KeyIndex(queue, record, 0);
    if i < |queue| {
      CountUpdate(queue, i, queue[i].(record := record), HasKey(kind, flow));
    } else if |queue| < COMPLETION_QUEUE_CAPACITY {
      CountSnoc(queue, Entry(record, NO_SLAB), HasKey(kind, flow));
      if kind == record.kind && flow == record.flow {
        CountZero(queue, HasKey(kind, flow));
      }
    }
  }

  lemma ControlPushedOk(c: Client, record: CompletionRecord)
    requires ClientOk(c) && c.inUse && record.kind != InboundDatagram
    ensures ClientOk(ControlPushed(c, record))
    ensures DataQueue(ControlPushed(c, record)) == DataQueue(c)
  {
    PushControlKeepsData(c.queue, record);
    forall kind, flow ensures Count(PushControl(c.queue, record), HasKey(kind, flow)) <= 1 {
      PushControlKeepsKeys(c.queue, record, kind, flow);
    }
  }

  lemma CoalescedControl(queue: seq<Entry>, record: CompletionRecord)
    ensures KeyIndex(queue, record, 0) < |queue| ==> Entry(record, NO_SLAB) in PushControl(queue, record)
  {
    var i := KeyIndex(queue, record, 0);
    if i < |queue| {
      assert PushControl(queue, record)[i] == Entry(record, NO_SLAB);
    }
  }

  /**
   * A control completion is lost only at a full ring, and then at least nine other control
   * completions, with keys different from it and from each other, are queued.
   */
  lemma DroppedControl(c: Client, record: CompletionRecord)
    requires ClientOk(c) && record.kind != InboundDatagram
    requires Entry(record, NO_SLAB) !in PushControl(c.queue, record)
    ensures |c.queue| == COMPLETION_QUEUE_CAPACITY
    ensures |Filter(c.queue, IsControl)| >= 9
    ensures forall e :: e in Filter(c.queue, IsControl) ==> !SameKey(e, record)
    ensures forall i, j :: 0 <= i < j < |c.queue| && !IsData(c.queue[i]) && !IsData(c.queue[j]) ==>
              c.queue[i].record.kind != c.queue[j].record.kind || c.queue[i].record.flow != c.queue[j].record.flow
  {
    CoalescedControl(c.queue, record);
    CountSplit(c.queue, IsData, IsControl, AnyEntry);
    CountFull(c.queue, AnyEntry);
    CountFull(Filter(c.queue, IsData), AnyEntry);
    CountFull(Filter(c.queue, IsControl), AnyEntry);
    FilterMembers(c.queue, IsControl);
    forall i, j | 0 <= i < j < |c.queue| && !IsData(c.queue[i]) && !IsData(c.queue[j])
      ensures c.queue[i].record.kind != c.queue[j].record.kind || c.queue[i].record.flow != c.queue[j].record.flow
    {
      var key := c.queue[i].record;
      if c.queue[j].record.kind == key.kind && c.queue[j].record.flow == key.flow {
        CountTwoHits(c.queue, i, j, HasKey(key.kind, key.flow));
      }
    }
  }

  predicate IsControl(e: Entry) {
    !IsData(e)
  }

  predicate AnyEntry(e: Entry) {
    true
  }

  /** Same clients, same queued datagrams. */
  ghost predicate SameOwners(a: Clients, b: Clients) {
    forall c :: 0 <= c < MAXIMUM_CLIENT_CONTEXTS ==>
      a[c].inUse == b[c].inUse && a[c].generation == b[c].generation && DataQueue(a[c]) == DataQueue(b[c])
  }

  lemma EnqueueControlOk(clients: Clients, id: ClientId, record: CompletionRecord)
    requires ClientsOk(clients) && record.kind != InboundDatagram
    ensures ClientsOk(EnqueueControl(clients, id, record))
    ensures SameOwners(clients, EnqueueControl(clients, id, record))
  {
    if IsClient(clients, id) {
      ControlPushedOk(clients[id.slot], record);
    }
  }

  /** The table invariants see clients only through their owners. */
  lemma SameOwnersOk(a: Clients, b: Clients, flows: Flows, slabs: Slabs)
    requires SameOwners(a, b)
    requires FlowsOk(a, flows) && OwnersOk(a, flows) && OccupanciesOk(a, flows) && SlabsOk(a, slabs)
    ensures FlowsOk(b, flows) && OwnersOk(b, flows) && OccupanciesOk(b, flows) && SlabsOk(b, slabs)
  {
    forall s | 0 <= s < MAXIMUM_FLOWS ensures FlowOk(b, flows[s]) && OccupancyOk(b, s, flows[s]) {
      assert FlowOk(a, flows[s]) && OccupancyOk(a, s, flows[s]);
    }
    forall c: nat, e | c < MAXIMUM_CLIENT_CONTEXTS && e in DataQueue(b[c]) ensures Owned(b, flows, c, e) {
      assert Owned(a, flows, c, e);
    }
  }

  // ---------------------------------------------------------------------------------------------
  // Slabs

  lemma NamedUpdate(clients: Clients, c: nat, next: Client, slab: nat)
    requires c < MAXIMUM_CLIENT_CONTEXTS
    ensures Named(clients[c := next], slab) == Named(clients, slab) - NamedBy(clients[c], slab) + NamedBy(next, slab)
  {
  }

  lemma NamedPair(clients: Clients, c: nat, d: nat, slab: nat)
    requires c < MAXIMUM_CLIENT_CONTEXTS && d < MAXIMUM_CLIENT_CONTEXTS && c != d
    ensures NamedBy(clients[c], slab) + NamedBy(clients[d], slab) <= Named(clients, slab)
  {
  }

  /** Releasing the selected entries frees exactly the slabs they name. */
  lemma {:induction false} ReleasedAt(slabs: Slabs, queue: seq<Entry>, f: Entry -> bool, s: nat)
    requires s < INBOUND_SLAB_COUNT
    ensures ReleaseEntries(slabs, queue, f)[s] ==
            if Count(Filter(queue, f), HasSlab(s)) > 0 then FREE_SLAB else slabs[s]
    decreases |queue|
  {
    if queue != [] {
      var next := if f(queue[0]) then ReleaseSlab(slabs, queue[0].slab) else slabs;
      ReleasedAt(next, queue[1..], f, s);
      if f(queue[0]) {
        assert ([queue[0]] + Filter(queue[1..], f))[1..] == Filter(queue[1..], f);
      }
    }
  }

  /** The data queue after a flow's datagrams are dropped, and the part that was dropped. */
  lemma RemovedData(queue: seq<Entry>, handle: nat)
    ensures Filter(Filter(queue, NotDataOf(handle)), IsData) == Filter(Filter(queue, IsData), NotOfFlow(handle))
    ensures Filter(queue, DataOf(handle)) == Filter(Filter(queue, IsData), OfFlow(handle))
  {
    FilterTwice(queue, NotDataOf(handle), IsData, DataNotOf(handle));
    FilterTwice(queue, IsData, NotOfFlow(handle), DataNotOf(handle));
    FilterTwice(queue, IsData, OfFlow(handle), DataOf(handle));
  }

  function DataNotOf(handle: nat): Entry -> bool {
    (e: Entry) => IsData(e) && e.record.flow != handle
  }

  /** Dropping a flow's datagrams keeps one name per allocated slab. */
  lemma RemoveKeepsSlabs(p: Plane, c: nat, handle: nat)
    requires c < MAXIMUM_CLIENT_CONTEXTS && SlabsOk(p.clients, p.slabs)
    ensures var q := RemoveFlowCompletions(p, c, handle); SlabsOk(q.clients, q.slabs)
  {
    var q := RemoveFlowCompletions(p, c, handle);
    var data := DataQueue(p.clients[c]);
    RemovedData(p.clients[c].queue, handle);
    forall s | 0 <= s < INBOUND_SLAB_COUNT ensures SlabOk(q.slabs[s]) && Named(q.clients, s) == Tally(q.slabs[s].inUse) {
      NamedUpdate(p.clients, c, q.clients[c], s);
      ReleasedAt(p.slabs, p.clients[c].queue, DataOf(handle), s);
      CountSplit(data, OfFlow(handle), NotOfFlow(handle), HasSlab(s));
      assert SlabOk(p.slabs[s]) && Named(p.clients, s) == Tally(p.slabs[s].inUse);
    }
  }

  lemma RemoveKeepsClient(p: Plane, c: nat, handle: nat)
    requires c < MAXIMUM_CLIENT_CONTEXTS && ClientOk(p.clients[c]) && p.clients[c].inUse
    ensures ClientOk(RemoveFlowCompletions(p, c, handle).clients[c])
  {
    var client := p.clients[c];
    var kept := Filter(client.queue, NotDataOf(handle));
    FilterMembers(client.queue, NotDataOf(handle));
    CountBound(client.queue, NotDataOf(handle));
    FilterMembers(kept, IsData);
    FilterMembers(client.queue, IsData);
    CountFilterLess(client.queue, NotDataOf(handle), IsData);
    forall kind, flow ensures Count(kept, HasKey(kind, flow)) <= 1 {
      CountFilterLess(client.queue, NotDataOf(handle), HasKey(kind, flow));
    }
  }
}
