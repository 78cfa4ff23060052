/** The worker's outbound tables as they are stored, each method proved against OutboundPool. */
module OutboundWorker {
  import opened Counting
  import opened TunnelProtocol
  import opened OutboundPool
  import opened OutboundOrder

  /** Reads the dispositions of a batch one by one. */
  method JudgeBatch(statuses: seq<ProtocolStatus>) returns (v: Verdict)
    ensures v.accepted == SuccessPrefix(statuses) && v.terminal == !AllQueueFull(statuses[v.accepted..])
    ensures !v.terminal ==> v.queueFull == (v.accepted < |statuses|)
  {
    v := NO_VERDICT;
    for i := 0 to |statuses|
      invariant Judge(statuses[i..], v) == Judge(statuses, NO_VERDICT)
    {
      assert statuses[i..][1..] == statuses[i + 1..];
      if statuses[i] == Success && !v.queueFull && !v.terminal {
        v := v.(accepted := v.accepted + 1);
      } else if statuses[i] == QueueFull && !v.terminal {
        v := v.(queueFull := true);
      } else {
        v := v.(terminal := true);
      }
    }
    JudgeMeaning(statuses, 0);
  }

  class OutboundState {
    const pool: array<Datagram>
    const flows: array<SocketFlow>
    var count: nat
    var metrics: Metrics

    ghost predicate Shaped() {
      pool.Length == POOL_SLOTS && flows.Length == SOCKETS
    }

    ghost function Model(): Outbound
      requires Shaped()
      reads this, pool, flows
    {
      Outbound(pool[..], count, flows[..], metrics)
    }

    ghost predicate Valid()
      reads this, pool, flows
    {
      Shaped() && Ok(Model())
    }

    constructor ()
      ensures Valid() && Model() == Initial() && fresh(pool) && fresh(flows)
    {
      pool := new Datagram[POOL_SLOTS](_ => FREE_DATAGRAM);
      flows := new SocketFlow[SOCKETS](_ => FREE_SOCKET);
      count, metrics := 0, Metrics(0, 0, 0);
      new;
      hide Ok, Repeat;
      assert pool[..] == Repeat(FREE_DATAGRAM, POOL_SLOTS);
      assert flows[..] == Repeat(FREE_SOCKET, SOCKETS);
      InitialOk();
    }

    method StoreFlow(f: nat, flow: SocketFlow)
      requires Shaped() && f < SOCKETS
      modifies flows
      ensures Model() == WithFlow(old(Model()), f, flow)
    {
      flows[f] := flow;
      assert flows[..] == old(flows[..])[f := flow];
    }

    method QueueOutbound(f: nat, payload: seq<Byte>) returns (queued: bool)
      requires Valid() && f < SOCKETS && flows[f].occupied
      modifies this, pool, flows
      ensures Valid() && (Model(), queued) == Queue(old(Model()), f, payload)
    {
      hide Ok, FreeSlot, Appended;
      QueueOk(Model(), f, payload);
      if !CanAccept(flows[f]) || count == POOL_SLOTS {
        return false;
      }
      var slot := AllocateOutbound(payload);
      if slot == POOL_SLOTS {
        return false;
      }
      metrics := metrics.(queued := metrics.queued + 1);
      StoreFlow(f, Appended(flows[f], slot));
      return true;
    }

    /** Takes the first free slot for a payload. */
    method AllocateOutbound(payload: seq<Byte>) returns (slot: nat)
      requires Shaped()
      modifies this`count, pool
      ensures slot == FreeSlot(old(pool[..]), 0)
      ensures Model() == if slot == POOL_SLOTS then old(Model())
                         else old(Model()).(pool := old(Model()).pool[slot := Datagram(true, payload)], count := old(count) + 1)
    {
      slot := 0;
      while slot < POOL_SLOTS && pool[slot].occupied
        invariant slot <= POOL_SLOTS && forall j :: 0 <= j < slot ==> pool[j].occupied
      {
        slot := slot + 1;
      }
      if slot < POOL_SLOTS {
        pool[slot] := Datagram(true, payload);
        assert pool[..] == old(pool[..])[slot := pool[slot]];
        count := count + 1;
      }
    }

    /** Frees the first `n` slots of a list. */
    method ReleaseSlots(slots: seq<nat>)
      requires Shaped() && |slots| <= count && forall i :: 0 <= i < |slots| ==> slots[i] < POOL_SLOTS
      modifies this`count, pool
      ensures Model() == old(Model()).(pool := Release(old(Model()).pool, slots), count := old(count) - |slots|)
    {
      for i := 0 to |slots|
        invariant count == old(count) - i && Release(pool[..], slots[i..]) == Release(old(pool[..]), slots)
      {
        ghost var before := pool[..];
        pool[slots[i]] := FREE_DATAGRAM;
        count := count - 1;
        assert pool[..] == before[slots[i] := FREE_DATAGRAM];
        assert slots[i..][1..] == slots[i + 1..];
      }
    }

    method RetireQueuedOutboundPrefix(f: nat, n: nat)
      requires Valid() && f < SOCKETS && n <= flows[f].queued <= count
      modifies this, pool, flows
      ensures Valid() && Model() == Retire(old(Model()), f, n)
    {
      hide Ok, Release, Shifted, TotalQueued;
      var flow := flows[f];
      FlowIsOk(Model(), f);
      RetireOk(Model(), f, n);
      assert flow.slots[..n] == List(flow)[..n];
      ReleaseSlots(flow.slots[..n]);
      var slots := ShiftDown(flow.slots, flow.queued, n);
      metrics := metrics.(accepted := metrics.accepted + n);
      StoreFlow(f, flow.(slots := slots, queued := flow.queued - n, sendAccepted := flow.sendAccepted + n));
    }

    /** Drops what a socket has queued and frees its entry. */
    method ResetFlow(f: nat)
      requires Valid() && f < SOCKETS && flows[f].queued <= count
      modifies this, pool, flows
      ensures Valid() && Model() == Reset(old(Model()), f)
    {
      hide Ok, Release, FlowOk, Reset, TotalQueued;
      ghost var w := Model();
      ResetOk(w, f);
      SlotsInPool(w, f);
      ResetIs(w, f);
      var flow := flows[f];
      ReleaseSlots(flow.slots[..flow.queued]);
      metrics := metrics.(discarded := metrics.discarded + flow.queued);
      StoreFlow(f, FREE_SOCKET);
    }

    method CloseAndDiscard(f: nat)
      requires Valid() && f < SOCKETS && flows[f].occupied && flows[f].queued <= count
      modifies this, pool, flows
      ensures Valid() && Model() == Terminate(old(Model()), f)
    {
      hide Ok, Release, Terminate, FlowOk, TotalQueued;
      ghost var w := Model();
      TerminateOk(w, f);
      SlotsInPool(w, f);
      TerminatedIs(w, f);
      var closed := flows[f].(closed := true, writable := false);
      ReleaseSlots(closed.slots[..closed.queued]);
      metrics := metrics.(discarded := metrics.discarded + closed.queued);
      StoreFlow(f, Emptied(closed));
    }

    /** Retires what a reply accepted, then closes the flow or notes that the queue is full. */
    method Settle(f: nat, v: Verdict)
      requires Valid() && f < SOCKETS && flows[f].occupied && !flows[f].closed && v.accepted <= flows[f].queued <= count
      modifies this, pool, flows
      ensures Valid() && Model() == Settled(old(Model()), f, v)
    {
      hide Ok, Terminate, Retire, TotalQueued;
      RetiredFlow(Model(), f, v.accepted);
      RetireQueuedOutboundPrefix(f, v.accepted);
      QueuedBelowCount(Model(), f);
      FlowIsOk(Model(), f);
      if v.terminal {
        CloseAndDiscard(f);
      } else if v.queueFull {
        SameListOk(Model(), f, flows[f].(writable := false));
        StoreFlow(f, flows[f].(writable := false));
      }
    }

    /** Submits one socket's batch and acts on the reply; says whether anything was accepted. */
    method SubmitBatch(f: nat, reply: Reply) returns (progress: bool)
      requires Valid() && f < SOCKETS && ReplyOk(reply)
      modifies this, pool, flows
      ensures Valid() && old(flows[f].queued) <= old(count) && Model() == Submit(old(Model()), f, reply)
      ensures progress ==> TotalQueued(flows[..]) < TotalQueued(old(flows[..]))
      ensures TotalQueued(flows[..]) <= TotalQueued(old(flows[..]))
      ensures !progress ==> !(flows[f].occupied && CanSubmit(flows[f]))
      ensures forall g :: 0 <= g < SOCKETS && g != f ==> flows[g] == old(flows[g])
    {
      ghost var w := Model();
      hide Ok, TotalQueued, SuccessPrefix, Submit, CanSubmit;
      QueuedBelowCount(w, f);
      SubmitFlows(w, f, reply);
      SubmitCases(w, f, reply);
      progress := false;
      if flows[f].occupied && CanSubmit(flows[f]) {
        progress := TakeReply(f, reply);
      }
      assert flows[..] == Submit(w, f, reply).flows;
    }

    method TakeReply(f: nat, reply: Reply) returns (progress: bool)
      requires Valid() && f < SOCKETS && ReplyOk(reply) && flows[f].occupied && CanSubmit(flows[f])
      modifies this, pool, flows
      ensures Valid() && old(flows[f].queued) <= old(count) && Model() == Submit(old(Model()), f, reply)
      ensures progress == (reply.Replied? && SuccessPrefix(reply.statuses[..old(flows[f].queued)]) > 0)
    {
      ghost var w := Model();
      hide Ok, Terminate, Settled, SuccessPrefix, AllQueueFull, Submit, CanSubmit;
      QueuedBelowCount(w, f);
      SubmitCases(w, f, reply);
      if reply.Failed? {
        CloseAndDiscard(f);
        return false;
      }
      var v := JudgeBatch(reply.statuses[..flows[f].queued]);
      SubmitSettles(w, f, reply, v);
      Settle(f, v);
      return v.accepted != 0;
    }

    /**
     * Submits every socket's batches until a round accepts nothing.  It terminates because each round
     * that continues leaves fewer datagrams queued, and then no socket has anything left to submit.
     */
    method SubmitQueuedDatagrams(service: nat -> Reply) returns (ghost steps: seq<Action>)
      requires Valid() && forall k :: ReplyOk(service(k))
      modifies this, pool, flows
      ensures Valid() && forall f :: 0 <= f < SOCKETS ==> !(flows[f].occupied && CanSubmit(flows[f]))
      ensures forall logs :: Run(World(old(Model()), logs), steps).outbound == Model()
    {
      steps := [];
      var calls := 0;
      var progress := true;
      while progress
        invariant Valid()
        invariant !progress ==> forall f :: 0 <= f < SOCKETS ==> !(flows[f].occupied && CanSubmit(flows[f]))
        invariant forall logs :: Run(World(old(Model()), logs), steps).outbound == Model()
        decreases TotalQueued(flows[..]) + (if progress then 1 else 0)
      {
        ghost var taken;
        progress, calls, taken := SubmitRound(service, calls);
        forall logs ensures Run(World(old(Model()), logs), steps + taken).outbound == Model() {
          RunAppend(World(old(Model()), logs), steps, taken);
        }
        steps := steps + taken;
      }
    }

    method SubmitRound(service: nat -> Reply, first: nat) returns (progress: bool, calls: nat, ghost steps: seq<Action>)
      requires Valid() && forall k :: ReplyOk(service(k))
      modifies this, pool, flows
      ensures Valid()
      ensures progress ==> TotalQueued(flows[..]) < TotalQueued(old(flows[..]))
      ensures TotalQueued(flows[..]) <= TotalQueued(old(flows[..]))
      ensures !progress ==> forall f :: 0 <= f < SOCKETS ==> !(flows[f].occupied && CanSubmit(flows[f]))
      ensures forall logs :: Run(World(old(Model()), logs), steps).outbound == Model()
    {
      hide Ok, Submit, TotalQueued, CanSubmit;
      progress, calls, steps := false, first, [];
      for f := 0 to SOCKETS
        invariant Valid()
        invariant progress ==> TotalQueued(flows[..]) < TotalQueued(old(flows[..]))
        invariant TotalQueued(flows[..]) <= TotalQueued(old(flows[..]))
        invariant !progress ==> forall g :: 0 <= g < f ==> !(flows[g].occupied && CanSubmit(flows[g]))
        invariant forall logs :: Run(World(old(Model()), logs), steps).outbound == Model()
      {
        ghost var before := Model();
        var advanced := SubmitBatch(f, service(calls));
        progress := progress || advanced;
        forall logs ensures Run(World(old(Model()), logs), steps + [BatchReplied(f, service(calls))]).outbound == Model() {
          RunSnoc(World(old(Model()), logs), steps, BatchReplied(f, service(calls)));
        }
        steps := steps + [BatchReplied(f, service(calls))];
        calls := calls + 1;
      }
    }
  }

  /** Moves the entries behind the first `n` to the front of the table. */
  method ShiftDown(slots: seq<nat>, queued: nat, n: nat) returns (shifted: seq<nat>)
    requires n <= queued <= |slots|
    ensures shifted == Shifted(slots, queued, n)
  {
    shifted := slots;
    for i := 0 to queued - n
      invariant |shifted| == |slots|
      invariant forall j :: 0 <= j < i ==> shifted[j] == slots[j + n]
      invariant forall j :: i <= j < |slots| ==> shifted[j] == slots[j]
    {
      shifted := shifted[i := shifted[i + n]];
    }
  }

  lemma FlowIsOk(w: Outbound, f: nat)
    requires Ok(w) && f < SOCKETS
    ensures FlowOk(w.flows[f])
  {
  }

  lemma SlotsInPool(w: Outbound, f: nat)
    requires Ok(w) && f < SOCKETS
    ensures var flow := w.flows[f];
            flow.queued <= SLOTS_PER_SOCKET && forall i :: 0 <= i < flow.queued ==> flow.slots[i] < POOL_SLOTS
  {
    FlowIsOk(w, f);
  }

  /** A reset, put together from the stored parts. */
  lemma ResetIs(w: Outbound, f: nat)
    requires f < SOCKETS && w.flows[f].queued <= w.count
    ensures var flow := w.flows[f];
            Reset(w, f) == w.(pool := Release(w.pool, flow.slots[..flow.queued]), count := w.count - flow.queued,
                              metrics := w.metrics.(discarded := w.metrics.discarded + flow.queued),
                              flows := w.flows[f := FREE_SOCKET])
  {
    hide Release;
    assert w.flows[f := Emptied(w.flows[f])][f := FREE_SOCKET] == w.flows[f := FREE_SOCKET];
  }

  lemma TerminatedIs(w: Outbound, f: nat)
    requires f < SOCKETS && w.flows[f].queued <= w.count
    ensures var flow := w.flows[f];
            Terminate(w, f) == w.(pool := Release(w.pool, flow.slots[..flow.queued]), count := w.count - flow.queued,
                                  metrics := w.metrics.(discarded := w.metrics.discarded + flow.queued),
                                  flows := w.flows[f := Emptied(flow.(closed := true, writable := false))])
  {
    hide Release;
    var closed := w.flows[f].(closed := true, writable := false);
    assert w.flows[f := closed][f := Emptied(closed)] == w.flows[f := Emptied(closed)];
  }

  lemma RetiredFlow(w: Outbound, f: nat, n: nat)
    requires f < SOCKETS && n <= w.flows[f].queued <= w.count
    ensures Retire(w, f, n).flows[f] == Retired(w.flows[f], n)
  {
    hide Release;
  }

  /** What acting on a verdict comes to. */
  function Settled(w: Outbound, f: nat, v: Verdict): Outbound
    requires f < SOCKETS && v.accepted <= w.flows[f].queued <= w.count
  {
    var retired := Retire(w, f, v.accepted);
    if v.terminal then Terminate(retired, f)
    else if v.queueFull then WithFlow(retired, f, retired.flows[f].(writable := false))
    else retired
  }

  lemma SubmitSettles(w: Outbound, f: nat, reply: Reply, v: Verdict)
    requires f < SOCKETS && ReplyOk(reply) && w.flows[f].queued <= w.count && reply.Replied?
    requires w.flows[f].occupied && CanSubmit(w.flows[f])
    requires var statuses := reply.statuses[..w.flows[f].queued];
             v.accepted == SuccessPrefix(statuses) && v.terminal == !AllQueueFull(statuses[v.accepted..]) &&
             (!v.terminal ==> v.queueFull == (v.accepted < |statuses|))
    ensures Submit(w, f, reply) == Settled(w, f, v)
  {
    hide Release, SuccessPrefix, AllQueueFull, Terminate, Retire;
    var statuses := reply.statuses[..w.flows[f].queued];
    assert statuses[v.accepted..] == reply.statuses[v.accepted..w.flows[f].queued];
  }

  lemma SubmitCases(w: Outbound, f: nat, reply: Reply)
    requires f < SOCKETS && ReplyOk(reply) && w.flows[f].queued <= w.count
    ensures if !w.flows[f].occupied || !CanSubmit(w.flows[f]) then Submit(w, f, reply) == w
            else !w.flows[f].closed && (reply.Failed? ==> Submit(w, f, reply) == Terminate(w, f))
  {
    hide Release, Terminate;
  }

  /** What a submission does to the lists' lengths, and when it leaves a socket with nothing to submit. */
  lemma SubmitFlows(w: Outbound, f: nat, reply: Reply)
    requires f < SOCKETS && ReplyOk(reply) && w.flows[f].queued <= w.count
    ensures var flow := w.flows[f];
            var q := Submit(w, f, reply);
            (forall g :: 0 <= g < SOCKETS && g != f ==> q.flows[g] == w.flows[g]) && TotalQueued(q.flows) <= TotalQueued(w.flows) &&
            (if flow.occupied && CanSubmit(flow) && reply.Replied? && SuccessPrefix(reply.statuses[..flow.queued]) > 0
             then TotalQueued(q.flows) < TotalQueued(w.flows)
             else !(q.flows[f].occupied && CanSubmit(q.flows[f])))
  {
    SubmittedFlow(w, f, reply);
    hide Submit, SuccessPrefix;
    HeldUpdate(w.flows, f, Submit(w, f, reply).flows[f], 0);
  }

  lemma SubmittedFlow(w: Outbound, f: nat, reply: Reply)
    requires f < SOCKETS && ReplyOk(reply) && w.flows[f].queued <= w.count
    ensures var flow := w.flows[f];
            var q := Submit(w, f, reply);
            q.flows == w.flows[f := q.flows[f]] && q.flows[f].queued <= flow.queued &&
            (if flow.occupied && CanSubmit(flow) && reply.Replied? && SuccessPrefix(reply.statuses[..flow.queued]) > 0
             then q.flows[f].queued < flow.queued
             else !(q.flows[f].occupied && CanSubmit(q.flows[f])))
  {
    hide Release, SuccessPrefix, Shifted;
    var flow := w.flows[f];
    if flow.occupied && CanSubmit(flow) && reply.Replied? {
      var statuses := reply.statuses[..flow.queued];
      assert statuses[SuccessPrefix(statuses)..] == reply.statuses[SuccessPrefix(statuses)..flow.queued];
    }
  }

  lemma {:induction false} RunAppend(w: World, before: seq<Action>, after: seq<Action>)
    ensures Run(w, before + after) == Run(Run(w, before), after)
    decreases |before|
  {
    if before == [] {
      assert before + after == after;
    } else {
      assert (before + after)[1..] == before[1..] + after;
      RunAppend(Next(w, before[0]), before[1..], after);
    }
  }

  lemma RunSnoc(w: World, before: seq<Action>, a: Action)
    ensures Run(w, before + [a]) == Next(Run(w, before), a)
  {
    RunAppend(w, before, [a]);
    assert Run(Run(w, before), [a]) == Run(Next(Run(w, before), a), []);
  }
}
