/**
 * The worker's outbound datagrams: one pool of eight slots shared by four sockets, a list of at most
 * four slots per socket, and batches that the tunnel service accepts from the front.
 */
module OutboundPool {
  import opened Counting
  import opened TunnelProtocol

  const POOL_SLOTS: nat := 8
  const SOCKETS: nat := 4
  const SLOTS_PER_SOCKET: nat := 4

  datatype Datagram = Datagram(occupied: bool, payload: seq<Byte>)

  const FREE_DATAGRAM := Datagram(false, [])

  type Pool = s: seq<Datagram> | |s| == POOL_SLOTS witness Repeat(FREE_DATAGRAM, POOL_SLOTS)

  /** A socket's flow: its submission state, its slot list, and its send counters. */
  datatype FlowRecord = FlowRecord(
    occupied: bool, writable: bool, closed: bool, queued: nat, slots: seq<nat>,
    adapterQueued: nat, sendAccepted: nat, queuedDiscarded: nat)

  type SocketFlow = f: FlowRecord | |f.slots| == SLOTS_PER_SOCKET && f.queued <= SLOTS_PER_SOCKET
    witness FlowRecord(false, true, false, 0, [0, 0, 0, 0], 0, 0, 0)

  const FREE_SOCKET: SocketFlow := FlowRecord(false, true, false, 0, [0, 0, 0, 0], 0, 0, 0)

  type Sockets = s: seq<SocketFlow> | |s| == SOCKETS witness [FREE_SOCKET, FREE_SOCKET, FREE_SOCKET, FREE_SOCKET]

  datatype Metrics = Metrics(queued: nat, accepted: nat, discarded: nat)

  datatype Outbound = Outbound(pool: Pool, count: nat, flows: Sockets, metrics: Metrics)

  function Initial(): Outbound {
    Outbound(Repeat(FREE_DATAGRAM, POOL_SLOTS), 0, Repeat(FREE_SOCKET, SOCKETS), Metrics(0, 0, 0))
  }

  // ---------------------------------------------------------------------------------------------
  // Submission state

  predicate CanAccept(f: SocketFlow) {
    !f.closed && f.writable && f.queued < SLOTS_PER_SOCKET
  }

  predicate CanSubmit(f: SocketFlow) {
    !f.closed && f.writable && f.queued != 0
  }

  function List(f: SocketFlow): seq<nat> {
    f.slots[..f.queued]
  }

  // ---------------------------------------------------------------------------------------------
  // Operations

  predicate IsOccupied(d: Datagram) {
    d.occupied
  }

  function FreeSlot(pool: Pool, from: nat): (i: nat)
    requires from <= POOL_SLOTS
    ensures from <= i <= POOL_SLOTS
    ensures i < POOL_SLOTS ==> !pool[i].occupied
    ensures forall j :: from <= j < i ==> pool[j].occupied
    decreases POOL_SLOTS - from
  {
    if from == POOL_SLOTS || !pool[from].occupied then from else FreeSlot(pool, from + 1)
  }

  function Appended(f: SocketFlow, slot: nat): SocketFlow
    requires f.queued < SLOTS_PER_SOCKET
  {
    f.(slots := f.slots[f.queued := slot], queued := f.queued + 1, adapterQueued := f.adapterQueued + 1)
  }

  function Queue(w: Outbound, f: nat, payload: seq<Byte>): (Outbound, bool)
    requires f < SOCKETS
  {
    var slot := FreeSlot(w.pool, 0);
    if !CanAccept(w.flows[f]) || w.count == POOL_SLOTS || slot == POOL_SLOTS then (w, false)
    else
      (w.(pool := w.pool[slot := Datagram(true, payload)], count := w.count + 1,
          flows := w.flows[f := Appended(w.flows[f], slot)],
          metrics := w.metrics.(queued := w.metrics.queued + 1)),
       true)
  }

  function Release(pool: Pool, slots: seq<nat>): Pool
    decreases |slots|
  {
    if slots == [] then pool
    else Release(if slots[0] < POOL_SLOTS then pool[slots[0] := FREE_DATAGRAM] else pool, slots[1..])
  }

  /** The list without its first `n` entries, moved down in place. */
  function Shifted(slots: seq<nat>, queued: nat, n: nat): (r: seq<nat>)
    requires n <= queued <= |slots|
    ensures |r| == |slots|
  {
    slots[n..queued] + slots[queued - n..]
  }

  function Retired(f: SocketFlow, n: nat): SocketFlow
    requires n <= f.queued
  {
    f.(slots := Shifted(f.slots, f.queued, n), queued := f.queued - n, sendAccepted := f.sendAccepted + n)
  }

  /** The service took the first `n` datagrams. */
  function Retire(w: Outbound, f: nat, n: nat): Outbound
    requires f < SOCKETS && n <= w.flows[f].queued && n <= w.count
  {
    w.(pool := Release(w.pool, List(w.flows[f])[..n]), count := w.count - n,
       flows := w.flows[f := Retired(w.flows[f], n)],
       metrics := w.metrics.(accepted := w.metrics.accepted + n))
  }

  function Emptied(f: SocketFlow): SocketFlow {
    f.(queued := 0, queuedDiscarded := f.queuedDiscarded + f.queued)
  }

  function Discard(w: Outbound, f: nat): Outbound
    requires f < SOCKETS && w.flows[f].queued <= w.count
  {
    w.(pool := Release(w.pool, List(w.flows[f])), count := w.count - w.flows[f].queued,
       flows := w.flows[f := Emptied(w.flows[f])],
       metrics := w.metrics.(discarded := w.metrics.discarded + w.flows[f].queued))
  }

  function WithFlow(w: Outbound, f: nat, flow: SocketFlow): Outbound
    requires f < SOCKETS
  {
    w.(flows := w.flows[f := flow])
  }

  /** A terminal notification or failure: no more sends, and what was queued is dropped. */
  function Terminate(w: Outbound, f: nat): Outbound
    requires f < SOCKETS && w.flows[f].queued <= w.count
  {
    Discard(WithFlow(w, f, w.flows[f].(closed := true, writable := false)), f)
  }

  function Reset(w: Outbound, f: nat): Outbound
    requires f < SOCKETS && w.flows[f].queued <= w.count
  {
    WithFlow(Discard(w, f), f, FREE_SOCKET)
  }

  function OpenSocket(w: Outbound, f: nat): Outbound
    requires f < SOCKETS
  {
    if w.flows[f].occupied then w else WithFlow(w, f, FREE_SOCKET.(occupied := true))
  }

  // ---------------------------------------------------------------------------------------------
  // Batches

  datatype Verdict = Verdict(accepted: nat, queueFull: bool, terminal: bool)

  /** The verdict as the dispositions are read one by one. */
  function Judge(statuses: seq<ProtocolStatus>, v: Verdict): Verdict {
    if statuses == [] then v
    else
      var next :=
        if statuses[0] == Success && !v.queueFull && !v.terminal then v.(accepted := v.accepted + 1)
        else if statuses[0] == QueueFull && !v.terminal then v.(queueFull := true)
        else v.(terminal := true);
      Judge(statuses[1..], next)
  }

  const NO_VERDICT := Verdict(0, false, false)

  function SuccessPrefix(statuses: seq<ProtocolStatus>): (n: nat)
    ensures n <= |statuses|
    ensures forall i :: 0 <= i < n ==> statuses[i] == Success
    ensures n < |statuses| ==> statuses[n] != Success
  {
    if statuses == [] || statuses[0] != Success then 0 else 1 + SuccessPrefix(statuses[1..])
  }

  predicate AllQueueFull(statuses: seq<ProtocolStatus>) {
    forall i :: 0 <= i < |statuses| ==> statuses[i] == QueueFull
  }

  /** Some answer is neither success nor queue-full, or a datagram is taken after another was refused. */
  predicate Disordered(statuses: seq<ProtocolStatus>) {
    (exists i :: 0 <= i < |statuses| && statuses[i] != Success && statuses[i] != QueueFull) ||
    (exists i, j :: 0 <= i < j < |statuses| && statuses[i] == QueueFull && statuses[j] == Success)
  }

  /** What the worker takes for a terminal batch is exactly a disordered one. */
  lemma TerminalIffDisordered(statuses: seq<ProtocolStatus>)
    ensures !AllQueueFull(statuses[SuccessPrefix(statuses)..]) <==> Disordered(statuses)
  {
    var n := SuccessPrefix(statuses);
    var rest := statuses[n..];
    if !AllQueueFull(rest) {
      var k :| 0 <= k < |rest| && rest[k] != QueueFull;
      assert statuses[n + k] == rest[k];
      if rest[k] == Success {
        assert statuses[n] != Success && n < n + k;
      }
    } else {
      forall i | 0 <= i < |statuses| ensures statuses[i] == if i < n then Success else QueueFull {
        if i >= n {
          assert statuses[i] == rest[i - n];
        }
      }
    }
  }

  /** A reply to a batch: the call failed, or every entry has a disposition. */
  datatype Reply = Failed | Replied(statuses: seq<ProtocolStatus>)

  predicate ReplyOk(reply: Reply) {
    reply.Replied? ==> |reply.statuses| == SLOTS_PER_SOCKET
  }

  function Submit(w: Outbound, f: nat, reply: Reply): Outbound
    requires f < SOCKETS && ReplyOk(reply) && w.flows[f].queued <= w.count
  {
    var flow := w.flows[f];
    if !flow.occupied || !CanSubmit(flow) then w
    else if reply.Failed? then Terminate(w, f)
    else
      var n := SuccessPrefix(reply.statuses[..flow.queued]);
      var rest := reply.statuses[n..flow.queued];
      var retired := Retire(w, f, n);
      if !AllQueueFull(rest) then Terminate(retired, f)
      else if rest != [] then WithFlow(retired, f, retired.flows[f].(writable := false))
      else retired
  }

  lemma {:induction false} JudgeRest(statuses: seq<ProtocolStatus>, v: Verdict)
    requires v.queueFull || v.terminal
    ensures var r := Judge(statuses, v);
            r.accepted == v.accepted && r.terminal == (v.terminal || !AllQueueFull(statuses)) && (v.queueFull ==> r.queueFull)
  {
    if statuses != [] {
      var next := if statuses[0] == QueueFull && !v.terminal then v.(queueFull := true) else v.(terminal := true);
      JudgeRest(statuses[1..], next);
      assert statuses == [statuses[0]] + statuses[1..];
    }
  }

  /**
   * What the loop over dispositions finds: the accepted entries are the leading successes, and anything
   * but queue-full behind them is terminal.
   */
  lemma {:induction false} JudgeMeaning(statuses: seq<ProtocolStatus>, accepted: nat)
    ensures var r := Judge(statuses, Verdict(accepted, false, false));
            var n := SuccessPrefix(statuses);
            r.accepted == accepted + n && r.terminal == !AllQueueFull(statuses[n..]) &&
            (!r.terminal ==> r.queueFull == (n < |statuses|))
  {
    if statuses != [] {
      hide SuccessPrefix, AllQueueFull;
      PrefixStep(statuses);
      if statuses[0] == Success {
        JudgeMeaning(statuses[1..], accepted + 1);
      } else {
        var v := if statuses[0] == QueueFull then Verdict(accepted, true, false) else Verdict(accepted, false, true);
        JudgeRest(statuses[1..], v);
        QueueFullStep(statuses);
      }
    }
  }

  lemma PrefixStep(statuses: seq<ProtocolStatus>)
    requires statuses != []
    ensures SuccessPrefix(statuses) == if statuses[0] == Success then 1 + SuccessPrefix(statuses[1..]) else 0
    ensures statuses[0] == Success ==> statuses[SuccessPrefix(statuses)..] == statuses[1..][SuccessPrefix(statuses[1..])..]
    ensures statuses[0] != Success ==> statuses[SuccessPrefix(statuses)..] == statuses
  {
  }

  lemma QueueFullStep(statuses: seq<ProtocolStatus>)
    requires statuses != []
    ensures AllQueueFull(statuses) <==> statuses[0] == QueueFull && AllQueueFull(statuses[1..])
  {
    assert statuses == [statuses[0]] + statuses[1..];
  }

  // ---------------------------------------------------------------------------------------------
  // Invariant

  function Is(slot: nat): nat -> bool {
    (s: nat) => s == slot
  }

  function HeldBy(f: SocketFlow, slot: nat): nat {
    Count(List(f), Is(slot))
  }

  /** How often a pool slot appears in the sockets' lists. */
  function Held(flows: Sockets, slot: nat): nat {
    HeldBy(flows[0], slot) + HeldBy(flows[1], slot) + HeldBy(flows[2], slot) + HeldBy(flows[3], slot)
  }

  function TotalQueued(flows: Sockets): nat {
    flows[0].queued + flows[1].queued + flows[2].queued + flows[3].queued
  }

  predicate FlowOk(f: SocketFlow) {
    (forall i :: 0 <= i < f.queued ==> f.slots[i] < POOL_SLOTS) &&
    (f.closed ==> f.queued == 0 && !f.writable) &&
    (!f.occupied ==> f == FREE_SOCKET)
  }

  /** Each occupied slot is in exactly one list once, each free slot in none. */
  ghost predicate SlotsOk(pool: Pool, flows: Sockets) {
    forall s :: 0 <= s < POOL_SLOTS ==> Held(flows, s) == Tally(pool[s].occupied)
  }

  ghost predicate Ok(w: Outbound) {
    SlotsOk(w.pool, w.flows) && (forall f :: 0 <= f < SOCKETS ==> FlowOk(w.flows[f])) &&
    w.count == Count(w.pool, IsOccupied) == TotalQueued(w.flows) &&
    w.metrics.queued == w.metrics.accepted + w.metrics.discarded + TotalQueued(w.flows)
  }

  lemma HeldUpdate(flows: Sockets, f: nat, next: SocketFlow, slot: nat)
    requires f < SOCKETS
    ensures Held(flows[f := next], slot) == Held(flows, slot) - HeldBy(flows[f], slot) + HeldBy(next, slot)
    ensures TotalQueued(flows[f := next]) == TotalQueued(flows) - flows[f].queued + next.queued
    ensures HeldBy(flows[f], slot) <= Held(flows, slot) && flows[f].queued <= TotalQueued(flows)
  {
  }

  /** One flow replaced, with its slots, counts and metrics in step. */
  lemma ReplacedOk(w: Outbound, q: Outbound, f: nat, next: SocketFlow)
    requires Ok(w) && f < SOCKETS && q.flows == w.flows[f := next] && FlowOk(next) && SlotsOk(q.pool, q.flows)
    requires q.count == Count(q.pool, IsOccupied) == w.count - w.flows[f].queued + next.queued
    requires q.metrics.queued - q.metrics.accepted - q.metrics.discarded ==
             w.metrics.queued - w.metrics.accepted - w.metrics.discarded - w.flows[f].queued + next.queued
    ensures Ok(q)
  {
    HeldUpdate(w.flows, f, next, 0);
    hide SlotsOk, Count, TotalQueued, FlowOk, Held;
  }

  lemma HeldPair(flows: Sockets, f: nat, g: nat, slot: nat)
    requires f < SOCKETS && g < SOCKETS && f != g
    ensures HeldBy(flows[f], slot) + HeldBy(flows[g], slot) <= Held(flows, slot)
  {
  }

  lemma {:induction false} ReleasedAt(pool: Pool, slots: seq<nat>, s: nat)
    requires s < POOL_SLOTS
    ensures Release(pool, slots)[s] == if Count(slots, Is(s)) > 0 then FREE_DATAGRAM else pool[s]
    decreases |slots|
  {
    if slots != [] {
      ReleasedAt(if slots[0] < POOL_SLOTS then pool[slots[0] := FREE_DATAGRAM] else pool, slots[1..], s);
    }
  }

  /** Releasing occupied slots named once each lowers the number of occupied ones by as many. */
  lemma {:induction false} ReleasedCount(pool: Pool, slots: seq<nat>)
    requires forall i :: 0 <= i < |slots| ==> slots[i] < POOL_SLOTS
    requires forall s :: 0 <= s < POOL_SLOTS ==> Count(slots, Is(s)) <= Tally(pool[s].occupied)
    ensures Count(Release(pool, slots), IsOccupied) == Count(pool, IsOccupied) - |slots|
    decreases |slots|
  {
    if slots != [] {
      var x := slots[0];
      var next: Pool := pool[x := FREE_DATAGRAM];
      assert Count(slots, Is(x)) == 1 + Count(slots[1..], Is(x));
      CountUpdate(pool, x, FREE_DATAGRAM, IsOccupied);
      forall s | 0 <= s < POOL_SLOTS ensures Count(slots[1..], Is(s)) <= Tally(next[s].occupied) {
        assert Count(slots, Is(s)) == Tally(slots[0] == s) + Count(slots[1..], Is(s));
      }
      ReleasedCount(next, slots[1..]);
    }
  }

  /** Room in every list and slot table for what the invariant counts. */
  lemma QueuedBelowCount(w: Outbound, f: nat)
    requires Ok(w) && f < SOCKETS
    ensures w.flows[f].queued <= w.count <= POOL_SLOTS
  {
    CountBound(w.pool, IsOccupied);
  }

  // ---------------------------------------------------------------------------------------------
  // Preservation

  lemma QueueOk(w: Outbound, f: nat, payload: seq<Byte>)
    requires Ok(w) && f < SOCKETS && w.flows[f].occupied
    ensures Ok(Queue(w, f, payload).0)
  {
    hide Ok, FreeSlot;
    if Queue(w, f, payload).1 {
      var slot := FreeSlot(w.pool, 0);
      QueueSlotOk(w, f, payload, slot);
    }
  }

  lemma QueueSlotOk(w: Outbound, f: nat, payload: seq<Byte>, slot: nat)
    requires Ok(w) && f < SOCKETS && w.flows[f].occupied && CanAccept(w.flows[f]) && slot < POOL_SLOTS && !w.pool[slot].occupied
    ensures Ok(w.(pool := w.pool[slot := Datagram(true, payload)], count := w.count + 1,
                  flows := w.flows[f := Appended(w.flows[f], slot)],
                  metrics := w.metrics.(queued := w.metrics.queued + 1)))
  {
    var flow := w.flows[f];
    var next := Appended(flow, slot);
    var pool := w.pool[slot := Datagram(true, payload)];
    AppendedOk(flow, slot);
    OkParts(w, f);
    CountUpdate(w.pool, slot, Datagram(true, payload), IsOccupied);
    hide Ok, Count, TotalQueued, List, FlowOk, SlotsOk;
    SlotTaken(w, f, slot, payload);
    ReplacedOk(w, w.(pool := pool, count := w.count + 1, flows := w.flows[f := next],
                     metrics := w.metrics.(queued := w.metrics.queued + 1)), f, next);
  }

  lemma AppendedOk(flow: SocketFlow, slot: nat)
    requires FlowOk(flow) && flow.occupied && CanAccept(flow) && slot < POOL_SLOTS
    ensures FlowOk(Appended(flow, slot)) && List(Appended(flow, slot)) == List(flow) + [slot]
  {
  }

  lemma SlotTaken(w: Outbound, f: nat, slot: nat, payload: seq<Byte>)
    requires SlotsOk(w.pool, w.flows) && f < SOCKETS && slot < POOL_SLOTS && !w.pool[slot].occupied && CanAccept(w.flows[f])
    requires List(Appended(w.flows[f], slot)) == List(w.flows[f]) + [slot]
    ensures SlotsOk(w.pool[slot := Datagram(true, payload)], w.flows[f := Appended(w.flows[f], slot)])
  {
    var next := Appended(w.flows[f], slot);
    var pool := w.pool[slot := Datagram(true, payload)];
    var flows := w.flows[f := next];
    hide Held, Count, List, Appended;
    forall s: nat | s < POOL_SLOTS ensures Held(flows, s) == Tally(pool[s].occupied) {
      HeldUpdate(w.flows, f, next, s);
      CountSnoc<nat>(List(w.flows[f]), slot, Is(s));
    }
  }

  /** Dropping the first `n` entries of one list and releasing their slots. */
  lemma DropFrontOk(w: Outbound, f: nat, n: nat, next: SocketFlow)
    requires SlotsOk(w.pool, w.flows) && f < SOCKETS && n <= w.flows[f].queued
    requires (forall i :: 0 <= i < w.flows[f].queued ==> w.flows[f].slots[i] < POOL_SLOTS) && List(next) == List(w.flows[f])[n..]
    ensures var gone := List(w.flows[f])[..n];
            SlotsOk(Release(w.pool, gone), w.flows[f := next]) &&
            Count(Release(w.pool, gone), IsOccupied) == Count(w.pool, IsOccupied) - n
  {
    var list: seq<nat> := List(w.flows[f]);
    var gone: seq<nat> := list[..n];
    assert list == gone + list[n..];
    assert |list| == w.flows[f].queued && forall i :: 0 <= i < |gone| ==> gone[i] < POOL_SLOTS;
    forall s: nat | s < POOL_SLOTS
      ensures Held(w.flows[f := next], s) == Tally(Release(w.pool, gone)[s].occupied) && Count(gone, Is(s)) <= Tally(w.pool[s].occupied)
    {
      hide Release, Count, Held;
      CountAppend<nat>(gone, list[n..], Is(s));
      HeldUpdate(w.flows, f, next, s);
      ReleasedAt(w.pool, gone, s);
    }
    hide Release, Count, Held, List;
    ReleasedCount(w.pool, gone);
  }

  lemma RetireOk(w: Outbound, f: nat, n: nat)
    requires Ok(w) && f < SOCKETS && n <= w.flows[f].queued <= w.count
    ensures Ok(Retire(w, f, n))
  {
    var flow := w.flows[f];
    var next := Retired(flow, n);
    assert List(next) == List(flow)[n..];
    assert FlowOk(flow) && SlotsOk(w.pool, w.flows) && w.count == Count(w.pool, IsOccupied);
    forall i | 0 <= i < next.queued ensures next.slots[i] < POOL_SLOTS {
      assert next.slots[i] == List(next)[i] == flow.slots[i + n];
    }
    hide Ok, Release, Held, Count, SlotsOk, List, TotalQueued, Shifted;
    DropFrontOk(w, f, n, next);
    ReplacedOk(w, Retire(w, f, n), f, next);
  }

  /** Emptying a list whose flow becomes `next`, which holds nothing. */
  lemma DiscardOk(w: Outbound, f: nat, next: SocketFlow)
    requires Ok(w) && f < SOCKETS && w.flows[f].queued <= w.count && next.queued == 0 && FlowOk(next)
    ensures Ok(WithFlow(Discard(w, f), f, next))
  {
    var flow := w.flows[f];
    ListParts(flow, next);
    OkParts(w, f);
    hide *;
    DropFrontOk(w, f, flow.queued, next);
    DiscardIs(w, f, next);
    ReplacedOk(w, WithFlow(Discard(w, f), f, next), f, next);
  }

  lemma ListParts(flow: SocketFlow, next: SocketFlow)
    ensures next.queued == 0 ==> List(next) == []
    ensures |List(flow)| == flow.queued && List(flow)[flow.queued..] == [] && List(flow)[..flow.queued] == List(flow)
  {
  }

  lemma OkParts(w: Outbound, f: nat)
    requires Ok(w) && f < SOCKETS
    ensures FlowOk(w.flows[f]) && SlotsOk(w.pool, w.flows) && w.count == Count(w.pool, IsOccupied)
    ensures forall i :: 0 <= i < w.flows[f].queued ==> w.flows[f].slots[i] < POOL_SLOTS
  {
    hide SlotsOk, Count, TotalQueued;
  }

  lemma DiscardIs(w: Outbound, f: nat, next: SocketFlow)
    requires f < SOCKETS && w.flows[f].queued <= w.count
    ensures var q := WithFlow(Discard(w, f), f, next);
            q.flows == w.flows[f := next] && q.pool == Release(w.pool, List(w.flows[f])) && q.count == w.count - w.flows[f].queued &&
            q.metrics == w.metrics.(discarded := w.metrics.discarded + w.flows[f].queued)
  {
    hide Release;
    assert w.flows[f := Emptied(w.flows[f])][f := next] == w.flows[f := next];
  }

  /** Closing first or discarding first comes to the same. */
  lemma TerminateIs(w: Outbound, f: nat)
    requires f < SOCKETS && w.flows[f].queued <= w.count
    ensures Terminate(w, f) == WithFlow(Discard(w, f), f, Emptied(w.flows[f].(closed := true, writable := false)))
  {
    var flow := w.flows[f];
    var closed := flow.(closed := true, writable := false);
    hide Release;
    assert List(closed) == List(flow);
    assert w.flows[f := closed][f := Emptied(closed)] == w.flows[f := Emptied(flow)][f := Emptied(closed)];
  }

  lemma TerminateOk(w: Outbound, f: nat)
    requires Ok(w) && f < SOCKETS && w.flows[f].occupied && w.flows[f].queued <= w.count
    ensures Ok(Terminate(w, f))
  {
    TerminateIs(w, f);
    assert FlowOk(w.flows[f]);
    hide Ok, Terminate, Discard, WithFlow;
    DiscardOk(w, f, Emptied(w.flows[f].(closed := true, writable := false)));
  }

  lemma ResetOk(w: Outbound, f: nat)
    requires Ok(w) && f < SOCKETS && w.flows[f].queued <= w.count
    ensures Ok(Reset(w, f))
  {
    DiscardOk(w, f, FREE_SOCKET);
  }

  lemma SameListOk(w: Outbound, f: nat, next: SocketFlow)
    requires Ok(w) && f < SOCKETS && List(next) == List(w.flows[f]) && next.queued == w.flows[f].queued && FlowOk(next)
    ensures Ok(WithFlow(w, f, next))
  {
    forall s | 0 <= s < POOL_SLOTS ensures Held(w.flows[f := next], s) == Held(w.flows, s) {
      HeldUpdate(w.flows, f, next, s);
    }
    HeldUpdate(w.flows, f, next, 0);
  }

  lemma SubmitOk(w: Outbound, f: nat, reply: Reply)
    requires Ok(w) && f < SOCKETS && ReplyOk(reply) && w.flows[f].queued <= w.count
    ensures Ok(Submit(w, f, reply))
  {
    hide Terminate, Release, Shifted, Held, TotalQueued;
    var flow := w.flows[f];
    if flow.occupied && CanSubmit(flow) {
      if reply.Failed? {
        TerminateOk(w, f);
      } else {
        var n := SuccessPrefix(reply.statuses[..flow.queued]);
        RetireOk(w, f, n);
        var retired := Retire(w, f, n);
        QueuedBelowCount(retired, f);
        assert FlowOk(retired.flows[f]);
        TerminateOk(retired, f);
        SameListOk(retired, f, retired.flows[f].(writable := false));
      }
    }
  }
}
