/** What the invariant means to a reader: slab ownership, port allocation and refresh idempotence. */
module FlowPlaneTheorems {
  import opened Counting
  import opened Division
  import opened TunnelProtocol
  import opened Routing
  import opened FlowPlane
  import opened FlowPlaneInvariant
  import opened FlowPlaneQueues
  import opened FlowPlaneOperations

  // ---------------------------------------------------------------------------------------------
  // Slab ownership

  /** Datagram `i` of client `c` names the slab. */
  predicate Names(clients: Clients, c: nat, i: nat, slab: nat) {
    c < MAXIMUM_CLIENT_CONTEXTS && i < |DataQueue(clients[c])| && DataQueue(clients[c])[i].slab == slab
  }

  lemma NamesCount(clients: Clients, c: nat, i: nat, slab: nat)
    requires Names(clients, c, i, slab)
    ensures NamedBy(clients[c], slab) >= 1
  {
    CountHit(DataQueue(clients[c]), i, HasSlab(slab));
  }

  /** Two queued datagrams never share a slab. */
  lemma NamesUnique(p: Plane, slab: nat, c: nat, i: nat, d: nat, j: nat)
    requires SlabsOk(p.clients, p.slabs) && slab < INBOUND_SLAB_COUNT
    requires Names(p.clients, c, i, slab) && Names(p.clients, d, j, slab)
    ensures c == d && i == j
  {
    hide Named, Count, Filter;
    NamesCount(p.clients, c, i, slab);
    NamesCount(p.clients, d, j, slab);
    assert Named(p.clients, slab) == Tally(p.slabs[slab].inUse);
    if c == d {
      NamedPair(p.clients, c, if c == 0 then 1 else 0, slab);
      if i != j {
        CountTwoHits(DataQueue(p.clients[c]), if i < j then i else j, if i < j then j else i, HasSlab(slab));
      }
    } else {
      NamedPair(p.clients, c, d, slab);
    }
  }

  /** An allocated slab is named by a datagram queued for a live client, whose flow is committed. */
  lemma SlabHasOwner(p: Plane, slab: nat) returns (c: nat, i: nat)
    requires Sound(p) && slab < INBOUND_SLAB_COUNT && p.slabs[slab].inUse
    ensures Names(p.clients, c, i, slab) && p.clients[c].inUse
    ensures Owned(p.clients, p.flows, c, DataQueue(p.clients[c])[i])
  {
    assert Named(p.clients, slab) == 1;
    c := if NamedBy(p.clients[0], slab) > 0 then 0 else if NamedBy(p.clients[1], slab) > 0 then 1
         else if NamedBy(p.clients[2], slab) > 0 then 2 else 3;
    i := CountWitness(DataQueue(p.clients[c]), HasSlab(slab));
    assert ClientOk(p.clients[c]);
    assert DataQueue(p.clients[c])[i] in DataQueue(p.clients[c]);
  }

  /** A free slab is named by nothing. */
  lemma FreeSlabUnnamed(p: Plane, slab: nat, c: nat, i: nat)
    requires SlabsOk(p.clients, p.slabs) && slab < INBOUND_SLAB_COUNT && !p.slabs[slab].inUse
    ensures !Names(p.clients, c, i, slab)
  {
    assert Named(p.clients, slab) == 0;
    hide SlabsOk, Count, DataQueue;
    if Names(p.clients, c, i, slab) {
      NamesCount(p.clients, c, i, slab);
      assert false;
    }
  }

  // ---------------------------------------------------------------------------------------------
  // Port allocation

  /** The port probed after `k` steps. */
  function Probe(port: U16, k: nat): U16
    decreases k
  {
    if k == 0 then port else Probe(NextPort(port), k - 1)
  }

  /** Probing runs through the dynamic range in a circle. */
  lemma {:induction false} ProbeCircle(port: U16, k: nat)
    requires port >= FIRST_PORT
    ensures Probe(port, k) == 49152 + (port - 49152 + k) % 16384
    decreases k
  {
    if k > 0 {
      ProbeCircle(NextPort(port), k - 1);
    }
  }

  /** Within one turn of the circle no port is probed twice. */
  lemma ProbesDistinct(port: U16, j: nat, k: nat)
    requires port >= FIRST_PORT && j < k < PORT_TRIES
    ensures Probe(port, j) != Probe(port, k)
  {
    ProbeCircle(port, j);
    ProbeCircle(port, k);
  }

  /** The ports a tuple with this source and remote cannot use, at most one per flow and tombstone. */
  function TakenPorts(p: Plane): (ports: seq<U16>)
    ensures |ports| == MAXIMUM_FLOWS + TOMBSTONE_CAPACITY
  {
    seq(MAXIMUM_FLOWS, i requires 0 <= i < MAXIMUM_FLOWS => p.flows[i].port) +
    seq(TOMBSTONE_CAPACITY, i requires 0 <= i < TOMBSTONE_CAPACITY => p.tombstones[i].port)
  }

  lemma BlockedPortTaken(p: Plane, port: U16, remote: Endpoint, now: int)
    requires !TupleFree(p, port, remote, now)
    ensures port in TakenPorts(p)
  {
    if TupleInUse(p.flows, p.policy.source, port, remote) {
      var i :| 0 <= i < MAXIMUM_FLOWS && UsesTuple(p.flows[i], p.policy.source, port, remote);
      assert TakenPorts(p)[i] == port;
    } else {
      var i :| 0 <= i < TOMBSTONE_CAPACITY && BlocksTuple(p.tombstones[i], p.policy.source, port, remote, now);
      assert TakenPorts(p)[MAXIMUM_FLOWS + i] == port;
    }
  }

  /** Distinct members of a sequence are no more than its length. */
  lemma {:induction false} Pigeonhole(holes: seq<U16>, pigeons: seq<U16>)
    requires forall i :: 0 <= i < |pigeons| ==> pigeons[i] in holes
    requires forall i, j :: 0 <= i < j < |pigeons| ==> pigeons[i] != pigeons[j]
    ensures |pigeons| <= |holes|
    decreases |pigeons|
  {
    if pigeons != [] {
      var last := pigeons[|pigeons| - 1];
      var k :| 0 <= k < |holes| && holes[k] == last;
      var fewer := holes[..k] + holes[k + 1..];
      forall i | 0 <= i < |pigeons| - 1 ensures pigeons[i] in fewer {
        var m :| 0 <= m < |holes| && holes[m] == pigeons[i];
        assert fewer[if m < k then m else m - 1] == pigeons[i];
      }
      Pigeonhole(fewer, pigeons[..|pigeons| - 1]);
    }
  }

  /** If allocation fails within `tries` probes, every probed port is taken. */
  lemma {:induction false} ExhaustedProbes(p: Plane, remote: Endpoint, now: int, tries: nat, k: nat)
    requires AllocatePort(p, remote, now, tries).0.None? && k < tries
    ensures Probe(p.nextPort, k) in TakenPorts(p)
    decreases tries
  {
    BlockedPortTaken(p, p.nextPort, remote, now);
    if k > 0 {
      var q := p.(nextPort := NextPort(p.nextPort));
      ExhaustedProbes(q, remote, now, tries - 1, k - 1);
      assert TakenPorts(q) == TakenPorts(p);
    }
  }

  /** The 16384 probes visit that many different ports and at most 32 can be taken, so one is free. */
  lemma PortAlwaysFound(p: Plane, remote: Endpoint, now: int)
    requires p.nextPort >= FIRST_PORT
    ensures var port := AllocatePort(p, remote, now, PORT_TRIES).0;
            port.Some? && FIRST_PORT <= port.value <= LAST_PORT && TupleFree(p, port.value, remote, now)
  {
    AllocatedPort(p, remote, now, PORT_TRIES);
    NotAllTaken(p, remote, now);
  }

  lemma NotAllTaken(p: Plane, remote: Endpoint, now: int)
    requires p.nextPort >= FIRST_PORT
    ensures AllocatePort(p, remote, now, PORT_TRIES).0.Some?
  {
    if AllocatePort(p, remote, now, PORT_TRIES).0.None? {
      var probes: seq<U16> := seq(33, k requires 0 <= k < 33 => Probe(p.nextPort, k));
      forall k | 0 <= k < |probes| ensures probes[k] in TakenPorts(p) {
        ExhaustedProbes(p, remote, now, PORT_TRIES, k);
      }
      forall j, k | 0 <= j < k < |probes| ensures probes[j] != probes[k] {
        ProbesDistinct(p.nextPort, j, k);
      }
      Pigeonhole(TakenPorts(p), probes);
    }
  }

  // ---------------------------------------------------------------------------------------------
  // Sending

  /** A completed send touches the waiter mark of a flow exactly when it names that flow's own handle. */
  lemma CompleteSendMarksIff(p: Plane, prepared: Prepared, status: ProtocolStatus, s: nat)
    requires s < MAXIMUM_FLOWS
    ensures var named := prepared.IsPrepared() && p.flows[s].inUse && Handle(s, p.flows[s]) == prepared.flow;
            CompleteSend(p, prepared, status).flows[s] ==
            p.flows[s].(writableWaiter :=
              if named && status == QueueFull then true else if named && status == Success then false
              else p.flows[s].writableWaiter)
  {
    HandleSlot(s, p.flows[s]);
    hide Handle;
  }

  /**
   * A handle with bit 6 or 7 set sends like the flow's own handle, because decoding ignores these bits, but a
   * send refused for lack of room then marks no flow.
   */
  lemma AliasedSendUnmarked(p: Plane, s: nat, alias: nat, size: nat, availability: Availability, status: ProtocolStatus)
    requires Sound(p) && s < MAXIMUM_FLOWS && p.flows[s].inUse && 0 < alias < 4
    ensures var f := p.flows[s];
            var (q, own) := PrepareSend(p, f.client, Handle(s, f), size, size, availability);
            var (r, aliased) := PrepareSend(p, f.client, Handle(s, f) + alias * 64, size, size, availability);
            q == r && own.status == aliased.status && own.IsPrepared() == aliased.IsPrepared() &&
            CompleteSend(p, aliased, status) == p
  {
    hide *;
    var f := p.flows[s];
    var own, aliased := Handle(s, f), Handle(s, f) + alias * 64;
    AliasFound(p, s, alias);
    SameFoundSend(p, f.client, own, aliased, size, availability);
    UnnamedSend(p, PrepareSend(p, f.client, aliased, size, size, availability).1, status);
  }

  /** An aliased handle finds the same flow for its client, and no flow by its exact value. */
  lemma AliasFound(p: Plane, s: nat, alias: nat)
    requires Sound(p) && s < MAXIMUM_FLOWS && p.flows[s].inUse && 0 < alias < 4
    ensures var f := p.flows[s];
            var own, aliased := Handle(s, f), Handle(s, f) + alias * 64;
            own != 0 && aliased != 0 && FindFlow(p, f.client, own) == FindFlow(p, f.client, aliased) &&
            FindToken(p.flows, aliased).None?
  {
    var f := p.flows[s];
    assert FlowOk(p.clients, f);
    HandleRoundTrip(s, f);
    HandleAliases(s, f, alias);
    AliasUnowned(s, f, alias);
    assert Handle(s, f) != 0;
    hide Sound, DecodeHandle, Handle;
  }

  lemma SameFoundSend(p: Plane, id: ClientId, h: nat, g: nat, size: nat, availability: Availability)
    requires h != 0 && g != 0 && FindFlow(p, id, h) == FindFlow(p, id, g)
    ensures var (q, own) := PrepareSend(p, id, h, size, size, availability);
            var (r, other) := PrepareSend(p, id, g, size, size, availability);
            q == r && own.status == other.status && own.IsPrepared() == other.IsPrepared() && other.flow == g
  {
    hide FindFlow;
  }

  lemma UnnamedSend(p: Plane, prepared: Prepared, status: ProtocolStatus)
    requires FindToken(p.flows, prepared.flow).None?
    ensures CompleteSend(p, prepared, status) == p
  {
  }

  /** An aliased handle is the handle of no flow in its slot. */
  lemma AliasUnowned(s: nat, f: Flow, alias: nat)
    requires s < 16 && 0 < alias < 4
    ensures (Handle(s, f) + alias * 64) % 16 == s && Handle(s, f) + alias * 64 != Handle(s, f) && Handle(s, f) % 16 == s
  {
    HandleSlot(s, f);
    hide Handle;
    SameLowBits(Handle(s, f), alias);
  }

  lemma SameLowBits(h: nat, alias: nat)
    ensures (h + alias * 64) % 16 == h % 16
  {
    assert h == h / 16 * 16 + h % 16;
    SkipSixteens(h / 16, alias * 4, h % 16);
  }

  lemma SkipSixteens(q: nat, more: nat, rest: nat)
    requires rest < 16
    ensures (q * 16 + rest + more * 16) % 16 == rest
  {
    Packed(q + more, rest, 16);
  }

  // ---------------------------------------------------------------------------------------------
  // Policy refresh

  lemma {:induction false} ApplyPolicyKeepsPolicy(p: Plane, slot: nat, now: int)
    requires slot <= MAXIMUM_FLOWS
    ensures ApplyPolicyFrom(p, slot, now).policy == p.policy
    decreases MAXIMUM_FLOWS - slot
  {
    if slot < MAXIMUM_FLOWS {
      ApplyPolicyKeepsPolicy(ApplyPolicyAt(p, slot, now), slot + 1, now);
    }
  }

  /** Refreshing again with the same input, at any later time, changes nothing at all. */
  lemma RefreshIdempotent(p: Plane, input: PolicyInput, now: int, later: int)
    ensures RefreshPolicy(RefreshPolicy(p, input, now), input, later) == RefreshPolicy(p, input, now)
  {
    var policy := ResolvePolicy(input);
    var renewed := p.(policy := policy, policyGeneration := p.nextPolicyGeneration,
                      nextPolicyGeneration := NextNonZero(p.nextPolicyGeneration));
    ApplyPolicyKeepsPolicy(renewed, 0, now);
  }
}
