/**
 * Conservation and order of outbound datagrams over whole runs.  An observer logs, per socket, what was
 * queued, what the replies accepted, what the service says it took, and what was dropped.
 */
module OutboundOrder {
  import opened Counting
  import opened TunnelProtocol
  import opened OutboundPool

  type Payload = seq<Byte>

  function PayloadAt(pool: Pool, slot: nat): Payload {
    if slot < POOL_SLOTS then pool[slot].payload else []
  }

  function Contents(pool: Pool, slots: seq<nat>): (c: seq<Payload>)
    ensures |c| == |slots|
    ensures forall i :: 0 <= i < |slots| ==> c[i] == PayloadAt(pool, slots[i])
  {
    seq(|slots|, i requires 0 <= i < |slots| => PayloadAt(pool, slots[i]))
  }

  /** The payloads a socket has waiting, first one first. */
  function Pending(w: Outbound, f: nat): seq<Payload>
    requires f < SOCKETS
  {
    Contents(w.pool, List(w.flows[f]))
  }

  // ---------------------------------------------------------------------------------------------
  // What the operations do to the waiting payloads

  /** A slot in one socket's list is in no other list and only once in its own. */
  lemma HeldOnce(w: Outbound, f: nat, i: nat, g: nat, gone: seq<nat>)
    requires Ok(w) && f < SOCKETS && g < SOCKETS && f != g && i < w.flows[f].queued
    requires gone <= List(w.flows[g])
    ensures Count(gone, Is(List(w.flows[f])[i])) == 0
  {
    var list := List(w.flows[f]);
    var slot := list[i];
    assert FlowOk(w.flows[f]) && slot < POOL_SLOTS;
    HeldPair(w.flows, f, g, slot);
    CountHit(list, i, Is(slot));
    var other := List(w.flows[g]);
    assert other == gone + other[|gone|..];
    CountAppend(gone, other[|gone|..], Is(slot));
  }

  lemma HeldOnceSelf(w: Outbound, f: nat, i: nat, n: nat)
    requires Ok(w) && f < SOCKETS && n <= i < w.flows[f].queued
    ensures Count(List(w.flows[f])[..n], Is(List(w.flows[f])[i])) == 0
  {
    var list := List(w.flows[f]);
    var slot := list[i];
    assert FlowOk(w.flows[f]) && slot < POOL_SLOTS;
    HeldUpdate(w.flows, f, w.flows[f], slot);
    assert list == list[..n] + list[n..];
    CountAppend(list[..n], list[n..], Is(slot));
    CountHit(list[n..], i - n, Is(slot));
  }

  /** Releasing the front of one list leaves the rest of it and every other list as they were. */
  lemma ReleaseKeeps(w: Outbound, f: nat, n: nat, g: nat)
    requires Ok(w) && f < SOCKETS && g < SOCKETS && n <= w.flows[f].queued
    ensures var pool := Release(w.pool, List(w.flows[f])[..n]);
            Contents(pool, List(w.flows[f])[n..]) == Pending(w, f)[n..] &&
            (g != f ==> Contents(pool, List(w.flows[g])) == Pending(w, g))
  {
    ReleaseKeepsRest(w, f, n);
    if g != f {
      ReleaseKeepsOther(w, f, n, g);
    }
  }

  lemma ReleaseKeepsRest(w: Outbound, f: nat, n: nat)
    requires Ok(w) && f < SOCKETS && n <= w.flows[f].queued
    ensures Contents(Release(w.pool, List(w.flows[f])[..n]), List(w.flows[f])[n..]) == Pending(w, f)[n..]
  {
    var list := List(w.flows[f]);
    var pool := Release(w.pool, list[..n]);
    assert |list| == w.flows[f].queued;
    hide *;
    forall i | n <= i < |list| ensures PayloadAt(pool, list[i]) == PayloadAt(w.pool, list[i]) {
      PayloadStays(w, f, n, i);
    }
    RestOfContents(w.pool, pool, list, n);
    PendingIs(w, f);
  }

  lemma PendingIs(w: Outbound, f: nat)
    requires f < SOCKETS
    ensures Pending(w, f) == Contents(w.pool, List(w.flows[f]))
  {
  }

  lemma PayloadStays(w: Outbound, f: nat, n: nat, i: nat)
    requires Ok(w) && f < SOCKETS && n <= i < w.flows[f].queued && n <= |List(w.flows[f])| == w.flows[f].queued
    ensures var list := List(w.flows[f]);
            PayloadAt(Release(w.pool, list[..n]), list[i]) == PayloadAt(w.pool, list[i])
  {
    var list := List(w.flows[f]);
    assert FlowOk(w.flows[f]) && list[i] < POOL_SLOTS;
    HeldOnceSelf(w, f, i, n);
    hide Ok, Release, List, Count;
    ReleasedAt(w.pool, list[..n], list[i]);
  }

  lemma RestOfContents(a: Pool, b: Pool, list: seq<nat>, n: nat)
    requires n <= |list| && forall i :: n <= i < |list| ==> PayloadAt(b, list[i]) == PayloadAt(a, list[i])
    ensures Contents(b, list[n..]) == Contents(a, list)[n..]
  {
    hide PayloadAt;
    var rest := list[n..];
    forall i | 0 <= i < |rest| ensures PayloadAt(b, rest[i]) == Contents(a, list)[n..][i] {
      assert rest[i] == list[n + i];
    }
  }

  lemma ReleaseKeepsOther(w: Outbound, f: nat, n: nat, g: nat)
    requires Ok(w) && f < SOCKETS && g < SOCKETS && g != f && n <= w.flows[f].queued
    ensures Contents(Release(w.pool, List(w.flows[f])[..n]), List(w.flows[g])) == Pending(w, g)
  {
    var gone, list := List(w.flows[f])[..n], List(w.flows[g]);
    var pool := Release(w.pool, gone);
    assert FlowOk(w.flows[f]) && FlowOk(w.flows[g]);
    forall i | 0 <= i < |list| ensures PayloadAt(pool, list[i]) == Pending(w, g)[i] {
      HeldOnce(w, g, i, f, gone);
      hide Ok, Release;
      ReleasedAt(w.pool, gone, list[i]);
    }
  }

  lemma QueuePending(w: Outbound, f: nat, payload: Payload, g: nat)
    requires Ok(w) && f < SOCKETS && g < SOCKETS
    ensures var (q, ok) := Queue(w, f, payload);
            Pending(q, g) == Pending(w, g) + (if ok && g == f then [payload] else [])
  {
    var (q, ok) := Queue(w, f, payload);
    hide Ok, FreeSlot, Pending, Contents;
    if ok {
      var slot := FreeSlot(w.pool, 0);
      var list := List(w.flows[g]);
      ListUnused(w, g, slot);
      AppendedList(w, f, slot, g);
      PendingIs(w, g);
      PendingIs(q, g);
      ContentsAppended(w.pool, slot, payload, list, g == f);
    } else {
      assert Pending(w, g) + [] == Pending(w, g);
    }
  }

  /** A free slot is in no list. */
  lemma ListUnused(w: Outbound, g: nat, slot: nat)
    requires Ok(w) && g < SOCKETS && slot < POOL_SLOTS && !w.pool[slot].occupied
    ensures slot !in List(w.flows[g])
  {
    var list := List(w.flows[g]);
    assert FlowOk(w.flows[g]);
    if slot in list {
      var i :| 0 <= i < |list| && list[i] == slot;
      CountHit(list, i, Is(slot));
      HeldUpdate(w.flows, g, w.flows[g], slot);
    }
  }

  lemma AppendedList(w: Outbound, f: nat, slot: nat, g: nat)
    requires f < SOCKETS && g < SOCKETS && w.flows[f].queued < SLOTS_PER_SOCKET
    ensures List(w.flows[f := Appended(w.flows[f], slot)][g]) == List(w.flows[g]) + (if g == f then [slot] else [])
  {
    assert List(Appended(w.flows[f], slot)) == List(w.flows[f]) + [slot];
  }

  lemma ContentsAppended(pool: Pool, slot: nat, payload: Payload, list: seq<nat>, more: bool)
    requires slot < POOL_SLOTS && slot !in list
    ensures Contents(pool[slot := Datagram(true, payload)], list + (if more then [slot] else [])) ==
            Contents(pool, list) + (if more then [payload] else [])
  {
  }

  lemma RetirePending(w: Outbound, f: nat, n: nat, g: nat)
    requires Ok(w) && f < SOCKETS && g < SOCKETS && n <= w.flows[f].queued <= w.count
    ensures Pending(Retire(w, f, n), g) == if g == f then Pending(w, f)[n..] else Pending(w, g)
  {
    ReleaseKeeps(w, f, n, g);
    hide Release, Ok;
    assert List(Retired(w.flows[f], n)) == List(w.flows[f])[n..];
  }

  lemma DiscardPending(w: Outbound, f: nat, next: SocketFlow, g: nat)
    requires Ok(w) && f < SOCKETS && g < SOCKETS && w.flows[f].queued <= w.count && next.queued == 0
    ensures Pending(WithFlow(Discard(w, f), f, next), g) == if g == f then [] else Pending(w, g)
  {
    ReleaseKeeps(w, f, w.flows[f].queued, g);
    hide Release, Ok;
    assert List(w.flows[f])[..w.flows[f].queued] == List(w.flows[f]) && List(next) == [];
  }

  lemma TerminatePending(w: Outbound, f: nat, g: nat)
    requires Ok(w) && f < SOCKETS && g < SOCKETS && w.flows[f].queued <= w.count
    ensures Pending(Terminate(w, f), g) == if g == f then [] else Pending(w, g)
  {
    TerminateIs(w, f);
    hide Ok, Terminate, Discard, WithFlow, Pending;
    DiscardPending(w, f, Emptied(w.flows[f].(closed := true, writable := false)), g);
  }

  // ---------------------------------------------------------------------------------------------
  // Runs and logs

  datatype Action =
    | Opened(f: nat)
    | SendQueued(f: nat, payload: Payload)
    | BatchReplied(f: nat, reply: Reply)
    | Terminated(f: nat)
    | ResetBy(f: nat)

  predicate Enabled(w: Outbound, a: Action) {
    a.f < SOCKETS && w.flows[a.f].queued <= w.count &&
    (a.SendQueued? || a.Terminated? ==> w.flows[a.f].occupied) && (a.BatchReplied? ==> ReplyOk(a.reply))
  }

  function Step(w: Outbound, a: Action): Outbound
    requires Enabled(w, a)
  {
    match a
    case Opened(f) => OpenSocket(w, f)
    case SendQueued(f, payload) => Queue(w, f, payload).0
    case BatchReplied(f, reply) => Submit(w, f, reply)
    case Terminated(f) => if w.flows[f].closed then w else Terminate(w, f)
    case ResetBy(f) => Reset(w, f)
  }

  lemma StepOk(w: Outbound, a: Action)
    requires Ok(w) && Enabled(w, a)
    ensures Ok(Step(w, a))
  {
    hide Ok, Queue, Submit, Terminate, Reset;
    match a
    case Opened(f) => OpenOk(w, f);
    case SendQueued(f, payload) => QueueOk(w, f, payload);
    case BatchReplied(f, reply) => SubmitOk(w, f, reply);
    case Terminated(f) => TerminateOk(w, f);
    case ResetBy(f) => ResetOk(w, f);
  }

  lemma OpenOk(w: Outbound, f: nat)
    requires Ok(w) && f < SOCKETS
    ensures Ok(OpenSocket(w, f))
  {
    assert FlowOk(w.flows[f]);
    if !w.flows[f].occupied {
      SameListOk(w, f, FREE_SOCKET.(occupied := true));
    }
  }

  /**
   * Per socket: what was queued, what the replies accepted, what the service says it took, what was dropped,
   * and the dispositions of the dropped datagrams in the reply that closed the flow, if a reply did.
   */
  datatype FlowLog = FlowLog(
    queued: seq<Payload>, accepted: seq<Payload>, served: seq<Payload>, discarded: seq<Payload>,
    closing: seq<ProtocolStatus>)

  const EMPTY_LOG := FlowLog([], [], [], [], [])

  /** The entries of a batch the service reports taken. */
  function Taken(batch: seq<Payload>, statuses: seq<ProtocolStatus>): seq<Payload>
    requires |batch| == |statuses|
    decreases |batch|
  {
    if batch == [] then []
    else (if statuses[0] == Success then [batch[0]] else []) + Taken(batch[1..], statuses[1..])
  }

  function ReplyLog(w: Outbound, f: nat, reply: Reply, log: FlowLog): FlowLog
    requires f < SOCKETS && ReplyOk(reply)
  {
    var batch := Pending(w, f);
    if !w.flows[f].occupied || !CanSubmit(w.flows[f]) then log
    else if reply.Failed? then log.(discarded := log.discarded + batch)
    else
      var statuses := reply.statuses[..|batch|];
      var n := SuccessPrefix(statuses);
      log.(accepted := log.accepted + batch[..n], served := log.served + Taken(batch, statuses),
           discarded := log.discarded + (if AllQueueFull(statuses[n..]) then [] else batch[n..]),
           closing := if AllQueueFull(statuses[n..]) then log.closing else statuses[n..])
  }

  function NextLog(w: Outbound, a: Action, f: nat, log: FlowLog): FlowLog
    requires Enabled(w, a) && f < SOCKETS
  {
    if a.f != f then log
    else
      match a
      case Opened(_) => if w.flows[f].occupied then log else EMPTY_LOG
      case SendQueued(_, payload) => if Queue(w, f, payload).1 then log.(queued := log.queued + [payload]) else log
      case BatchReplied(_, reply) => ReplyLog(w, f, reply, log)
      case Terminated(_) => log.(discarded := log.discarded + Pending(w, f))
      case ResetBy(_) => log.(discarded := log.discarded + Pending(w, f))
  }

  predicate IsOpen(flow: SocketFlow) {
    flow.occupied && !flow.closed
  }

  /** What the service took of the dropped datagrams: those the closing reply calls successes behind another status. */
  predicate LateOk(log: FlowLog) {
    if log.closing == [] then log.served == log.accepted
    else |log.closing| == |log.discarded| && log.closing[0] != Success && !AllQueueFull(log.closing) &&
         log.served == log.accepted + Taken(log.discarded, log.closing)
  }

  /**
   * While a flow is open, what was queued is what was accepted followed by what waits, and the service
   * took exactly what was accepted; afterwards the rest was discarded.
   */
  predicate LogOk(w: Outbound, f: nat, log: FlowLog)
    requires f < SOCKETS
  {
    var flow := w.flows[f];
    (if IsOpen(flow)
     then log.queued == log.accepted + Pending(w, f) && log.served == log.accepted && log.discarded == [] && log.closing == []
     else log.queued == log.accepted + log.discarded && LateOk(log) && Pending(w, f) == []) &&
    (flow.occupied ==>
       flow.adapterQueued == |log.queued| && flow.sendAccepted == |log.accepted| && flow.queuedDiscarded == |log.discarded|)
  }

  lemma {:induction false} NothingTaken(batch: seq<Payload>, statuses: seq<ProtocolStatus>)
    requires |batch| == |statuses| && forall i :: 0 <= i < |statuses| ==> statuses[i] != Success
    ensures Taken(batch, statuses) == []
    decreases |batch|
  {
    if batch != [] {
      NothingTaken(batch[1..], statuses[1..]);
    }
  }

  /** Another socket's step leaves a log right. */
  lemma OtherLog(w: Outbound, a: Action, f: nat, log: FlowLog)
    requires Ok(w) && Enabled(w, a) && f < SOCKETS && a.f != f && LogOk(w, f, log)
    ensures LogOk(Step(w, a), f, log)
  {
    OtherPending(w, a, f);
    hide Ok, Queue, Pending;
  }

  lemma OtherPending(w: Outbound, a: Action, f: nat)
    requires Ok(w) && Enabled(w, a) && f < SOCKETS && a.f != f
    ensures Pending(Step(w, a), f) == Pending(w, f) && Step(w, a).flows[f] == w.flows[f]
  {
    hide Ok, Queue, Submit, Terminate, Reset, OpenSocket, Pending;
    match a
    case Opened(g) => OpenLeavesOthers(w, g, f);
    case SendQueued(g, payload) =>
      QueuePending(w, g, payload, f);
      QueueLeavesOthers(w, g, payload, f);
    case BatchReplied(g, reply) => SubmitPending(w, g, reply, f);
    case Terminated(g) =>
      TerminatePending(w, g, f);
      TerminateLeavesOthers(w, g, f);
    case ResetBy(g) =>
      DiscardPending(w, g, FREE_SOCKET, f);
      ResetLeavesOthers(w, g, f);
  }

  lemma OpenLeavesOthers(w: Outbound, g: nat, f: nat)
    requires g < SOCKETS && f < SOCKETS && g != f
    ensures OpenSocket(w, g).flows[f] == w.flows[f] && Pending(OpenSocket(w, g), f) == Pending(w, f)
  {
  }

  lemma QueueLeavesOthers(w: Outbound, g: nat, payload: Payload, f: nat)
    requires g < SOCKETS && f < SOCKETS && g != f
    ensures Queue(w, g, payload).0.flows[f] == w.flows[f]
  {
  }

  lemma TerminateLeavesOthers(w: Outbound, g: nat, f: nat)
    requires g < SOCKETS && f < SOCKETS && g != f && w.flows[g].queued <= w.count
    ensures Terminate(w, g).flows[f] == w.flows[f]
  {
    hide Release;
  }

  lemma ResetLeavesOthers(w: Outbound, g: nat, f: nat)
    requires g < SOCKETS && f < SOCKETS && g != f && w.flows[g].queued <= w.count
    ensures Reset(w, g).flows[f] == w.flows[f] && Reset(w, g) == WithFlow(Discard(w, g), g, FREE_SOCKET)
  {
    hide Release;
  }

  /** What a reply does to the waiting payloads and the flow. */
  lemma SubmitPending(w: Outbound, f: nat, reply: Reply, g: nat)
    requires Ok(w) && f < SOCKETS && g < SOCKETS && ReplyOk(reply) && w.flows[f].queued <= w.count
    ensures g != f ==> Submit(w, f, reply).flows[g] == w.flows[g] && Pending(Submit(w, f, reply), g) == Pending(w, g)
    ensures var flow := w.flows[f];
            g == f && flow.occupied && CanSubmit(flow) && reply.Replied? ==>
              var n := SuccessPrefix(reply.statuses[..flow.queued]);
              var rest := reply.statuses[n..flow.queued];
              var q := Submit(w, f, reply);
              Pending(q, f) == (if AllQueueFull(rest) then Pending(w, f)[n..] else []) &&
              q.flows[f].occupied && q.flows[f].closed == !AllQueueFull(rest) &&
              q.flows[f].adapterQueued == flow.adapterQueued && q.flows[f].sendAccepted == flow.sendAccepted + n &&
              q.flows[f].queuedDiscarded == flow.queuedDiscarded + (if AllQueueFull(rest) then 0 else flow.queued - n)
  {
    hide Release, Ok, SuccessPrefix, Contents, AllQueueFull;
    var flow := w.flows[f];
    if flow.occupied && CanSubmit(flow) {
      TerminatePending(w, f, g);
      if reply.Replied? {
        var n := SuccessPrefix(reply.statuses[..flow.queued]);
        RetirePending(w, f, n, g);
        RetireOk(w, f, n);
        QueuedBelowCount(Retire(w, f, n), f);
        TerminatePending(Retire(w, f, n), f, g);
      }
    }
  }

  /** A flow that ends: what was waiting is discarded. */
  lemma EndedLog(w: Outbound, q: Outbound, f: nat, log: FlowLog)
    requires f < SOCKETS && LogOk(w, f, log) && Pending(q, f) == [] && !IsOpen(q.flows[f])
    requires q.flows[f].occupied ==> w.flows[f].occupied && q.flows[f] == Emptied(w.flows[f].(closed := true, writable := false))
    ensures LogOk(q, f, log.(discarded := log.discarded + Pending(w, f)))
  {
    assert log.discarded + [] == log.discarded;
    assert |Pending(w, f)| == w.flows[f].queued;
    assert [] + Pending(w, f) == Pending(w, f);
    hide Pending;
  }

  lemma ReplyLogOk(w: Outbound, f: nat, reply: Reply, log: FlowLog)
    requires Ok(w) && f < SOCKETS && ReplyOk(reply) && w.flows[f].queued <= w.count && LogOk(w, f, log)
    ensures LogOk(Submit(w, f, reply), f, ReplyLog(w, f, reply, log))
  {
    hide Ok, LogOk, Pending, Terminate, Retire, SuccessPrefix, AllQueueFull, Taken;
    if w.flows[f].occupied && CanSubmit(w.flows[f]) {
      if reply.Failed? {
        TerminatePending(w, f, f);
        TerminatedFlow(w, f);
        EndedLog(w, Terminate(w, f), f, log);
      } else {
        RepliedLogOk(w, f, reply, log);
      }
    }
  }

  lemma TerminatedFlow(w: Outbound, f: nat)
    requires f < SOCKETS && w.flows[f].queued <= w.count
    ensures Terminate(w, f).flows[f] == Emptied(w.flows[f].(closed := true, writable := false))
  {
    hide Release;
  }

  lemma RepliedLogOk(w: Outbound, f: nat, reply: Reply, log: FlowLog)
    requires Ok(w) && f < SOCKETS && ReplyOk(reply) && w.flows[f].queued <= w.count && LogOk(w, f, log)
    requires w.flows[f].occupied && CanSubmit(w.flows[f]) && reply.Replied?
    ensures LogOk(Submit(w, f, reply), f, ReplyLog(w, f, reply, log))
  {
    var flow := w.flows[f];
    var batch := Pending(w, f);
    assert |batch| == flow.queued && IsOpen(flow);
    hide Ok, Submit, Pending, SuccessPrefix, AllQueueFull, Taken, LogOk;
    var statuses := reply.statuses[..flow.queued];
    var n := SuccessPrefix(statuses);
    SubmitPending(w, f, reply, f);
    TakenSplit(batch, statuses, n);
    assert statuses[n..] == reply.statuses[n..flow.queued];
    AnsweredLog(w, Submit(w, f, reply), f, log, n, statuses[n..]);
  }

  /** A flow whose first `n` payloads were accepted; `rest` is what the reply says of the others. */
  lemma AnsweredLog(w: Outbound, q: Outbound, f: nat, log: FlowLog, n: nat, rest: seq<ProtocolStatus>)
    requires f < SOCKETS && LogOk(w, f, log) && IsOpen(w.flows[f]) && n + |rest| == |Pending(w, f)|
    requires rest != [] ==> rest[0] != Success
    requires Pending(q, f) == (if AllQueueFull(rest) then Pending(w, f)[n..] else [])
    requires q.flows[f].occupied && q.flows[f].closed == !AllQueueFull(rest) && q.flows[f].adapterQueued == w.flows[f].adapterQueued
    requires q.flows[f].sendAccepted == w.flows[f].sendAccepted + n
    requires q.flows[f].queuedDiscarded == w.flows[f].queuedDiscarded + (if AllQueueFull(rest) then 0 else |rest|)
    ensures var batch := Pending(w, f);
            LogOk(q, f, log.(accepted := log.accepted + batch[..n],
                             served := log.served + (batch[..n] + Taken(batch[n..], rest)),
                             discarded := log.discarded + (if AllQueueFull(rest) then [] else batch[n..]),
                             closing := if AllQueueFull(rest) then log.closing else rest))
  {
    var batch := Pending(w, f);
    var flow := q.flows[f];
    assert flow.adapterQueued == |log.queued| && flow.sendAccepted == |log.accepted| + n;
    assert log.queued == log.accepted + batch && log.served == log.accepted && log.discarded == [] && log.closing == [];
    hide Pending, Taken, AllQueueFull, LogOk;
    if AllQueueFull(rest) {
      RestRefused(batch[n..], rest);
      StillOpenLog(q, f, log, batch, n);
    } else {
      EndedByReply(q, f, log, batch, n, rest);
    }
  }

  lemma RestRefused(batch: seq<Payload>, rest: seq<ProtocolStatus>)
    requires |batch| == |rest| && AllQueueFull(rest)
    ensures Taken(batch, rest) == []
  {
    NothingTaken(batch, rest);
  }

  lemma StillOpenLog(q: Outbound, f: nat, log: FlowLog, batch: seq<Payload>, n: nat)
    requires f < SOCKETS && IsOpen(q.flows[f]) && n <= |batch| && Pending(q, f) == batch[n..]
    requires log.queued == log.accepted + batch && log.served == log.accepted && log.discarded == [] && log.closing == []
    requires q.flows[f].adapterQueued == |log.queued| && q.flows[f].sendAccepted == |log.accepted| + n
    requires q.flows[f].queuedDiscarded == 0
    ensures LogOk(q, f, log.(accepted := log.accepted + batch[..n], served := log.served + (batch[..n] + []),
                             discarded := log.discarded + [], closing := log.closing))
  {
    hide Pending;
    assert log.accepted + batch == log.accepted + batch[..n] + batch[n..];
    assert batch[..n] + [] == batch[..n];
  }

  lemma EndedByReply(q: Outbound, f: nat, log: FlowLog, batch: seq<Payload>, n: nat, rest: seq<ProtocolStatus>)
    requires f < SOCKETS && q.flows[f].occupied && q.flows[f].closed && n + |rest| == |batch| && Pending(q, f) == []
    requires rest != [] && rest[0] != Success && !AllQueueFull(rest)
    requires log.queued == log.accepted + batch && log.served == log.accepted && log.discarded == []
    requires q.flows[f].adapterQueued == |log.queued| && q.flows[f].sendAccepted == |log.accepted| + n
    requires q.flows[f].queuedDiscarded == |rest|
    ensures LogOk(q, f, log.(accepted := log.accepted + batch[..n],
                             served := log.served + (batch[..n] + Taken(batch[n..], rest)),
                             discarded := log.discarded + batch[n..], closing := rest))
  {
    var taken := Taken(batch[n..], rest);
    hide Pending, Taken, AllQueueFull;
    SplitBatch(log.accepted, batch, n, taken);
    assert [] + batch[n..] == batch[n..];
  }

  lemma SplitBatch(accepted: seq<Payload>, batch: seq<Payload>, n: nat, taken: seq<Payload>)
    requires n <= |batch|
    ensures accepted + batch == accepted + batch[..n] + batch[n..]
    ensures accepted + (batch[..n] + taken) == accepted + batch[..n] + taken
  {
  }

  lemma QueuedLog(w: Outbound, f: nat, payload: Payload, log: FlowLog)
    requires Ok(w) && f < SOCKETS && w.flows[f].occupied && LogOk(w, f, log)
    ensures var (q, ok) := Queue(w, f, payload);
            LogOk(q, f, if ok then log.(queued := log.queued + [payload]) else log)
  {
    QueuePending(w, f, payload, f);
    hide Ok, Pending;
    assert log.accepted + Pending(w, f) + [payload] == log.accepted + (Pending(w, f) + [payload]);
  }

  lemma StepLogOk(w: Outbound, a: Action, f: nat, log: FlowLog)
    requires Ok(w) && Enabled(w, a) && f < SOCKETS && LogOk(w, f, log)
    ensures LogOk(Step(w, a), f, NextLog(w, a, f, log))
  {
    hide Ok, LogOk, Pending, Terminate, Reset, Queue, Submit, OpenSocket, ReplyLog;
    if a.f != f {
      OtherLog(w, a, f, log);
    } else {
      match a
      case Opened(_) => OpenedLog(w, f, log);
      case SendQueued(_, payload) => QueuedLog(w, f, payload, log);
      case BatchReplied(_, reply) => ReplyLogOk(w, f, reply, log);
      case Terminated(_) => TerminatedLog(w, f, log);
      case ResetBy(_) => ResetLog(w, f, log);
    }
  }

  lemma TerminatedLog(w: Outbound, f: nat, log: FlowLog)
    requires Ok(w) && f < SOCKETS && w.flows[f].queued <= w.count && w.flows[f].occupied && LogOk(w, f, log)
    ensures LogOk(if w.flows[f].closed then w else Terminate(w, f), f, log.(discarded := log.discarded + Pending(w, f)))
  {
    hide Ok, LogOk, Pending, Terminate;
    if w.flows[f].closed {
      NothingWaiting(w, f, log);
    } else {
      TerminatePending(w, f, f);
      TerminatedFlow(w, f);
      EndedLog(w, Terminate(w, f), f, log);
    }
  }

  lemma ResetLog(w: Outbound, f: nat, log: FlowLog)
    requires Ok(w) && f < SOCKETS && w.flows[f].queued <= w.count && LogOk(w, f, log)
    ensures LogOk(Reset(w, f), f, log.(discarded := log.discarded + Pending(w, f)))
  {
    hide Ok, LogOk, Pending, Discard;
    DiscardPending(w, f, FREE_SOCKET, f);
    EndedLog(w, Reset(w, f), f, log);
  }

  lemma OpenedLog(w: Outbound, f: nat, log: FlowLog)
    requires f < SOCKETS && LogOk(w, f, log)
    ensures LogOk(OpenSocket(w, f), f, if w.flows[f].occupied then log else EMPTY_LOG)
  {
  }

  lemma NothingWaiting(w: Outbound, f: nat, log: FlowLog)
    requires f < SOCKETS && w.flows[f].closed && LogOk(w, f, log)
    ensures log.(discarded := log.discarded + Pending(w, f)) == log
  {
    hide Pending;
    assert log.discarded + [] == log.discarded;
  }

  type Logs = s: seq<FlowLog> | |s| == SOCKETS witness [EMPTY_LOG, EMPTY_LOG, EMPTY_LOG, EMPTY_LOG]

  datatype World = World(outbound: Outbound, logs: Logs)

  function InitialWorld(): World {
    World(Initial(), Repeat(EMPTY_LOG, SOCKETS))
  }

  function Next(w: World, a: Action): World {
    if !Enabled(w.outbound, a) then w
    else World(Step(w.outbound, a),
               seq(SOCKETS, f requires 0 <= f < SOCKETS => NextLog(w.outbound, a, f, w.logs[f])))
  }

  function Run(w: World, actions: seq<Action>): World
    decreases |actions|
  {
    if actions == [] then w else Run(Next(w, actions[0]), actions[1..])
  }

  ghost predicate WorldOk(w: World) {
    Ok(w.outbound) && forall f :: 0 <= f < SOCKETS ==> LogOk(w.outbound, f, w.logs[f])
  }

  lemma {:induction false} RunOk(w: World, actions: seq<Action>)
    requires WorldOk(w)
    ensures WorldOk(Run(w, actions))
    decreases |actions|
  {
    if actions != [] {
      NextOk(w, actions[0]);
      RunOk(Next(w, actions[0]), actions[1..]);
    }
  }

  lemma NextOk(w: World, a: Action)
    requires WorldOk(w)
    ensures WorldOk(Next(w, a))
  {
    hide Ok, LogOk, Step, NextLog;
    if Enabled(w.outbound, a) {
      StepOk(w.outbound, a);
      forall f | 0 <= f < SOCKETS ensures LogOk(Step(w.outbound, a), f, NextLog(w.outbound, a, f, w.logs[f])) {
        StepLogOk(w.outbound, a, f, w.logs[f]);
      }
    }
  }

  lemma InitialOk()
    ensures WorldOk(InitialWorld())
  {
    InitialPoolOk();
    var w := Initial();
    hide Ok;
    forall f | 0 <= f < SOCKETS ensures LogOk(w, f, InitialWorld().logs[f]) {
      assert w.flows[f] == FREE_SOCKET && InitialWorld().logs[f] == EMPTY_LOG;
      assert List(FREE_SOCKET) == [] && Pending(w, f) == [];
    }
  }

  lemma InitialPoolOk()
    ensures Ok(Initial())
  {
    var w := Initial();
    assert forall f :: 0 <= f < SOCKETS ==> w.flows[f] == FREE_SOCKET;
    assert forall s :: 0 <= s < POOL_SLOTS ==> w.pool[s] == FREE_DATAGRAM;
    assert w.count == 0 && w.metrics == Metrics(0, 0, 0);
    hide Initial, Repeat;
    BlankPoolOk(w);
  }

  lemma BlankPoolOk(w: Outbound)
    requires w.count == 0 && w.metrics == Metrics(0, 0, 0)
    requires forall f :: 0 <= f < SOCKETS ==> w.flows[f] == FREE_SOCKET
    requires forall s :: 0 <= s < POOL_SLOTS ==> w.pool[s] == FREE_DATAGRAM
    ensures Ok(w)
  {
    assert List(FREE_SOCKET) == [];
    CountZero(w.pool, IsOccupied);
    forall s: nat | s < POOL_SLOTS ensures Held(w.flows, s) == 0 {
      assert HeldBy(FREE_SOCKET, s) == 0;
      hide HeldBy;
    }
    hide Held, List, Count;
  }

  // ---------------------------------------------------------------------------------------------
  // Results

  /**
   * Order: at any point of any run, what a socket's replies accepted is a prefix of what was queued on
   * it; while the flow is open the rest is waiting and the service took nothing else, and once it is
   * closed the rest was discarded.
   */
  lemma AcceptedInOrder(actions: seq<Action>, f: nat)
    requires f < SOCKETS
    ensures var w := Run(InitialWorld(), actions);
            w.logs[f].accepted <= w.logs[f].queued &&
            (IsOpen(w.outbound.flows[f]) ==>
               w.logs[f].queued == w.logs[f].accepted + Pending(w.outbound, f) && w.logs[f].served == w.logs[f].accepted) &&
            (!IsOpen(w.outbound.flows[f]) ==> w.logs[f].queued == w.logs[f].accepted + w.logs[f].discarded)
  {
    InitialOk();
    RunOk(InitialWorld(), actions);
    var w := Run(InitialWorld(), actions);
    assert LogOk(w.outbound, f, w.logs[f]);
  }

  /** Conservation: queued sends are accepted, discarded or held, per socket and in total. */
  lemma SendsConserved(actions: seq<Action>, f: nat)
    requires f < SOCKETS
    ensures var w := Run(InitialWorld(), actions).outbound;
            w.metrics.queued == w.metrics.accepted + w.metrics.discarded + TotalQueued(w.flows) &&
            w.count == TotalQueued(w.flows) == Count(w.pool, IsOccupied) &&
            w.flows[f].adapterQueued == w.flows[f].sendAccepted + w.flows[f].queuedDiscarded + w.flows[f].queued
  {
    InitialOk();
    RunOk(InitialWorld(), actions);
    var w := Run(InitialWorld(), actions);
    assert LogOk(w.outbound, f, w.logs[f]) && FlowOk(w.outbound.flows[f]);
    assert |Pending(w.outbound, f)| == w.outbound.flows[f].queued;
  }

  /** Disjointness: an occupied slot is in exactly one socket's list, at one place; a free one in none. */
  lemma SlotsDisjoint(actions: seq<Action>, slot: nat)
    requires slot < POOL_SLOTS
    ensures var w := Run(InitialWorld(), actions).outbound;
            Held(w.flows, slot) == Tally(w.pool[slot].occupied)
  {
    InitialOk();
    RunOk(InitialWorld(), actions);
  }

  /**
   * What the service took: in any run, while a flow is open, or once anything but a reply closed it, exactly
   * the accepted prefix of what was queued.  If a reply closed it, that prefix and then, of the
   * datagrams dropped with it, those the reply calls successes; the first dropped one is never among
   * them, and the reply refused it.
   */
  lemma ServedExactly(actions: seq<Action>, f: nat)
    requires f < SOCKETS
    ensures var w := Run(InitialWorld(), actions);
            var log := w.logs[f];
            log.accepted <= log.queued && (IsOpen(w.outbound.flows[f]) ==> log.closing == []) &&
            if log.closing == [] then log.served == log.accepted
            else |log.closing| == |log.discarded| && log.queued == log.accepted + log.discarded &&
                 log.closing[0] != Success && Disordered(log.closing) &&
                 log.served == log.accepted + Taken(log.discarded, log.closing)
  {
    InitialOk();
    RunOk(InitialWorld(), actions);
    var w := Run(InitialWorld(), actions);
    assert LogOk(w.outbound, f, w.logs[f]);
    TerminalIffDisordered(w.logs[f].closing);
    RefusedFirst(w.logs[f].closing);
  }

  lemma RefusedFirst(statuses: seq<ProtocolStatus>)
    requires statuses != [] ==> statuses[0] != Success
    ensures SuccessPrefix(statuses) == 0 && statuses[SuccessPrefix(statuses)..] == statuses
  {
  }

  /** When a batch closes an open flow: the call failed, or the dispositions are out of order. */
  lemma ReplyClosesIff(w: Outbound, f: nat, reply: Reply)
    requires Ok(w) && f < SOCKETS && ReplyOk(reply) && w.flows[f].queued <= w.count
    requires w.flows[f].occupied && CanSubmit(w.flows[f])
    ensures Submit(w, f, reply).flows[f].closed <==>
            reply.Failed? || Disordered(reply.statuses[..w.flows[f].queued])
  {
    if reply.Replied? {
      var statuses := reply.statuses[..w.flows[f].queued];
      SubmitPending(w, f, reply, f);
      TerminalIffDisordered(statuses);
      assert statuses[SuccessPrefix(statuses)..] == reply.statuses[SuccessPrefix(statuses)..w.flows[f].queued];
      hide Ok, Submit, Pending;
    } else {
      TerminatedFlow(w, f);
      hide Terminate;
    }
  }

  lemma {:induction false} TakenSplit(batch: seq<Payload>, statuses: seq<ProtocolStatus>, n: nat)
    requires |batch| == |statuses| && n <= |batch| && forall i :: 0 <= i < n ==> statuses[i] == Success
    ensures Taken(batch, statuses) == batch[..n] + Taken(batch[n..], statuses[n..])
    decreases n
  {
    if n > 0 {
      TakenSplit(batch[1..], statuses[1..], n - 1);
      assert batch[..n] == [batch[0]] + batch[1..][..n - 1];
      assert batch[1..][n - 1..] == batch[n..] && statuses[1..][n - 1..] == statuses[n..];
    } else {
      assert batch[0..] == batch && statuses[0..] == statuses;
    }
  }
}
