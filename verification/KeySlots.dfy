/**
 * A peer's three keypair slots, the handshake that fills them, and the index registry that mirrors
 * them.  Cryptography appears as success flags; a keypair is its two indices, its role, and a serial
 * number by which an observer tells keypairs apart.
 */
module KeySlots {
  import opened TunnelProtocol

  const ALLOCATION_TRIES: nat := 32

  datatype Keypair = Keypair(serial: nat, local: U32, remote: U32, initiator: bool)

  datatype HandshakeState =
    | Zeroed | InitiationCreated | InitiationReceived | ResponseCreated | ResponseReceived | SessionDerived

  datatype Handshake = Handshake(state: HandshakeState, local: U32, remote: U32)

  /** An entry holds an index, or zero when it is inactive. */
  datatype Registry = Registry(handshake: U32, current: U32, next: U32, previous: U32)

  datatype Slot = NoSlot | HandshakeSlot | CurrentSlot | NextSlot | PreviousSlot

  const EMPTY_REGISTRY := Registry(0, 0, 0, 0)
  const NO_HANDSHAKE := Handshake(Zeroed, 0, 0)

  datatype Device = Device(
    current: Option<Keypair>, next: Option<Keypair>, previous: Option<Keypair>,
    registry: Registry, handshake: Handshake, nextIndex: U32, births: nat)

  function Initial(nextIndex: U32): Device {
    Device(None, None, None, EMPTY_REGISTRY, NO_HANDSHAKE, nextIndex, 0)
  }

  // ---------------------------------------------------------------------------------------------
  // Indices

  function Lookup(r: Registry, index: U32): Slot {
    if index == 0 then NoSlot
    else if r.handshake == index then HandshakeSlot
    else if r.current == index then CurrentSlot
    else if r.next == index then NextSlot
    else if r.previous == index then PreviousSlot
    else NoSlot
  }

  /** The counter is shared by all devices, starts anywhere, and skips zero. */
  function NextIndex(index: U32): U32 {
    NextNonZero(index)
  }

  /** The first unregistered candidate within the tries left, and the counter behind it. */
  function Allocate(r: Registry, nextIndex: U32, tries: nat): (U32, U32)
    decreases tries
  {
    if tries == 0 then (0, nextIndex)
    else if nextIndex != 0 && Lookup(r, nextIndex) == NoSlot then (nextIndex, NextIndex(nextIndex))
    else Allocate(r, NextIndex(nextIndex), tries - 1)
  }

  function LocalOf(k: Option<Keypair>): U32 {
    if k.Some? then k.value.local else 0
  }

  /** The registry re-read from the slots; the handshake entry is cleared as well. */
  function Refreshed(d: Device): Device {
    d.(registry := Registry(0, LocalOf(d.current), LocalOf(d.next), LocalOf(d.previous)))
  }

  // ---------------------------------------------------------------------------------------------
  // Handshakes and sessions

  function Registered(d: Device, index: U32): Device {
    d.(handshake := d.handshake.(local := index), registry := d.registry.(handshake := index))
  }

  /** `created` says whether the message could be built after the index was taken. */
  function CreateInitiation(d: Device, created: bool): Device {
    var (index, following) := Allocate(d.registry, d.nextIndex, ALLOCATION_TRIES);
    var taken := d.(nextIndex := following);
    if index == 0 then taken
    else
      var begun := Registered(taken, index).(handshake := Handshake(d.handshake.state, index, 0));
      if created then begun.(handshake := begun.handshake.(state := InitiationCreated)) else begun
  }

  /** An initiation that passed every check, from a non-zero sender. */
  function ReceiveInitiation(d: Device, sender: U32): Device {
    var received := d.(handshake := Handshake(InitiationReceived, d.handshake.local, sender));
    var (index, following) := Allocate(d.registry, d.nextIndex, ALLOCATION_TRIES);
    if index == 0 then received.(nextIndex := following, handshake := Handshake(InitiationReceived, 0, 0))
    else Registered(received.(nextIndex := following), index)
  }

  function CreateResponse(d: Device): Device {
    if d.handshake.state == InitiationReceived && d.handshake.local != 0 && d.handshake.remote != 0
    then d.(handshake := d.handshake.(state := ResponseCreated)) else d
  }

  predicate AcceptsResponse(d: Device, sender: U32, receiver: U32) {
    d.handshake.state == InitiationCreated && sender != 0 && sender != d.handshake.local &&
    receiver != 0 && d.registry.handshake == receiver &&
    !(d.current.Some? && sender == d.current.value.remote)
  }

  function ReceiveResponse(d: Device, sender: U32, receiver: U32): Device {
    if AcceptsResponse(d, sender, receiver)
    then d.(handshake := d.handshake.(state := ResponseReceived, remote := sender)) else d
  }

  predicate CanBegin(h: Handshake) {
    (h.state == ResponseCreated || h.state == ResponseReceived) && h.local != 0 && h.remote != 0
  }

  function BeginSession(d: Device): Device {
    var h := d.handshake;
    if !CanBegin(h) then d
    else
      var derived := Some(Keypair(d.births, h.local, h.remote, h.state == ResponseReceived));
      var moved :=
        if h.state == ResponseCreated then d.(next := derived, previous := None)
        else if d.next.Some? then d.(previous := d.next, next := None, current := derived)
        else d.(previous := d.current, current := derived);
      Refreshed(moved).(handshake := Handshake(SessionDerived, 0, 0), births := d.births + 1)
  }

  // ---------------------------------------------------------------------------------------------
  // Transport data

  function KeypairAt(d: Device, slot: Slot): Option<Keypair> {
    match slot
    case CurrentSlot => d.current
    case NextSlot => d.next
    case PreviousSlot => d.previous
    case _ => None
  }

  function Promote(d: Device): Device {
    if d.next.None? then d else Refreshed(d.(previous := d.current, current := d.next, next := None))
  }

  /** The keypair a transport packet was accepted under, if any; `authentic` covers the AEAD and window checks. */
  function AcceptedUnder(d: Device, index: U32, authentic: bool): Option<Keypair> {
    var keypair := KeypairAt(d, Lookup(d.registry, index));
    if keypair.Some? && keypair.value.local == index && authentic then keypair else None
  }

  function ReceiveTransport(d: Device, index: U32, authentic: bool): Device {
    if AcceptedUnder(d, index, authentic).Some? && Lookup(d.registry, index) == NextSlot then Promote(d) else d
  }

  // ---------------------------------------------------------------------------------------------
  // Steps

  datatype Action =
    | InitiationMade(created: bool)
    | InitiationArrived(sender: U32)
    | ResponseMade
    | ResponseArrived(sender: U32, receiver: U32)
    | SessionBegun
    | TransportArrived(index: U32, authentic: bool)
    | KeysZeroed
    | TransientScrubbed
    | OtherDeviceAllocated(nextIndex: U32)

  function Cleared(d: Device, h: Handshake): Device {
    d.(current := None, next := None, previous := None, registry := EMPTY_REGISTRY, handshake := h)
  }

  function Step(d: Device, a: Action): Device {
    match a
    case InitiationMade(created) => CreateInitiation(d, created)
    case InitiationArrived(sender) => if sender == 0 then d else ReceiveInitiation(d, sender)
    case ResponseMade => CreateResponse(d)
    case ResponseArrived(sender, receiver) => ReceiveResponse(d, sender, receiver)
    case SessionBegun => BeginSession(d)
    case TransportArrived(index, authentic) => ReceiveTransport(d, index, authentic)
    case KeysZeroed => Cleared(d, NO_HANDSHAKE)
    case TransientScrubbed => Cleared(d, d.handshake.(local := 0, remote := 0))
    case OtherDeviceAllocated(nextIndex) => if nextIndex == 0 then d else d.(nextIndex := nextIndex)
  }

  // ---------------------------------------------------------------------------------------------
  // Invariant

  predicate KeypairOk(k: Option<Keypair>, births: nat) {
    k.Some? ==> k.value.local != 0 && k.value.remote != 0 && k.value.serial < births
  }

  predicate Differ(a: Option<Keypair>, b: Option<Keypair>) {
    a.Some? && b.Some? ==> a.value.local != b.value.local && a.value.serial != b.value.serial
  }

  predicate Avoids(index: U32, d: Device) {
    index != 0 ==> index != LocalOf(d.current) && index != LocalOf(d.next) && index != LocalOf(d.previous)
  }

  predicate Ok(d: Device) {
    KeypairOk(d.current, d.births) && KeypairOk(d.next, d.births) && KeypairOk(d.previous, d.births) &&
    Differ(d.current, d.next) && Differ(d.current, d.previous) && Differ(d.next, d.previous) &&
    d.registry.current == LocalOf(d.current) && d.registry.next == LocalOf(d.next) && d.registry.previous == LocalOf(d.previous) &&
    Avoids(d.handshake.local, d) && Avoids(d.registry.handshake, d) && d.nextIndex != 0
  }

  lemma {:induction false} AllocateOk(r: Registry, nextIndex: U32, tries: nat)
    requires nextIndex != 0
    ensures var (index, following) := Allocate(r, nextIndex, tries);
            following != 0 && (index != 0 ==> Lookup(r, index) == NoSlot)
    decreases tries
  {
    if tries > 0 {
      AllocateOk(r, NextIndex(nextIndex), tries - 1);
    }
  }

  lemma StepOk(d: Device, a: Action)
    requires Ok(d)
    ensures Ok(Step(d, a))
  {
    match a
    case InitiationMade(created) => InitiationsOk(d, created, 0);
    case InitiationArrived(sender) => InitiationsOk(d, true, sender);
    case ResponseMade =>
    case ResponseArrived(_, _) =>
    case SessionBegun => SessionOk(d);
    case TransportArrived(_, _) => PromoteOk(d);
    case KeysZeroed =>
    case TransientScrubbed =>
    case OtherDeviceAllocated(_) =>
  }

  lemma InitiationsOk(d: Device, created: bool, sender: U32)
    requires Ok(d)
    ensures Ok(CreateInitiation(d, created)) && Ok(ReceiveInitiation(d, sender))
  {
    AllocateOk(d.registry, d.nextIndex, ALLOCATION_TRIES);
    hide Allocate;
    assert Avoids(Allocate(d.registry, d.nextIndex, ALLOCATION_TRIES).0, d);
  }

  lemma SessionOk(d: Device)
    requires Ok(d)
    ensures Ok(BeginSession(d))
  {
  }

  lemma PromoteOk(d: Device)
    requires Ok(d)
    ensures Ok(Promote(d))
  {
  }

  // ---------------------------------------------------------------------------------------------
  // Allocation

  /** The candidates of one allocation, in order. */
  function Candidate(nextIndex: U32, k: nat): U32 {
    if k == 0 then nextIndex else NextIndex(Candidate(nextIndex, k - 1))
  }

  lemma {:induction false} CandidateValue(nextIndex: U32, k: nat)
    requires nextIndex != 0
    ensures Candidate(nextIndex, k) == 1 + (nextIndex - 1 + k) % 0xFFFF_FFFF
  {
    if k > 0 {
      CandidateValue(nextIndex, k - 1);
    }
  }

  lemma CandidatesDiffer(nextIndex: U32, i: nat, j: nat)
    requires nextIndex != 0 && i < j < 0xFFFF_FFFF
    ensures Candidate(nextIndex, i) != Candidate(nextIndex, j)
  {
    CandidateValue(nextIndex, i);
    CandidateValue(nextIndex, j);
  }

  lemma {:induction false} NextCandidate(nextIndex: U32, k: nat)
    ensures Candidate(NextIndex(nextIndex), k) == Candidate(nextIndex, k + 1)
  {
    if k > 0 {
      NextCandidate(nextIndex, k - 1);
    }
  }

  /** Each of the first five candidates is found if it is free, so four taken ones cannot exhaust them. */
  lemma {:induction false} AllocateFindsFree(r: Registry, nextIndex: U32, tries: nat, k: nat)
    requires nextIndex != 0 && k < tries && Lookup(r, Candidate(nextIndex, k)) == NoSlot
    ensures Allocate(r, nextIndex, tries).0 != 0
    decreases tries
  {
    if Lookup(r, nextIndex) != NoSlot {
      NextCandidate(nextIndex, k - 1);
      AllocateFindsFree(r, NextIndex(nextIndex), tries - 1, k - 1);
    }
  }

  /** Allocation never fails. */
  lemma AllocateSucceeds(r: Registry, nextIndex: U32)
    requires nextIndex != 0
    ensures Allocate(r, nextIndex, ALLOCATION_TRIES).0 != 0
  {
    CandidatesDiffer(nextIndex, 0, 1);
    CandidatesDiffer(nextIndex, 0, 2);
    CandidatesDiffer(nextIndex, 0, 3);
    CandidatesDiffer(nextIndex, 0, 4);
    CandidatesDiffer(nextIndex, 1, 2);
    CandidatesDiffer(nextIndex, 1, 3);
    CandidatesDiffer(nextIndex, 1, 4);
    CandidatesDiffer(nextIndex, 2, 3);
    CandidatesDiffer(nextIndex, 2, 4);
    CandidatesDiffer(nextIndex, 3, 4);
    var k := FreeAmongFive(r, Candidate(nextIndex, 0), Candidate(nextIndex, 1), Candidate(nextIndex, 2),
                           Candidate(nextIndex, 3), Candidate(nextIndex, 4));
    AllocateFindsFree(r, nextIndex, ALLOCATION_TRIES, k);
  }

  lemma FreeAmongFive(r: Registry, a: U32, b: U32, c: U32, d: U32, e: U32) returns (k: nat)
    requires a != b && a != c && a != d && a != e && b != c && b != d && b != e && c != d && c != e && d != e
    ensures k < 5 && Lookup(r, [a, b, c, d, e][k]) == NoSlot
  {
    if Lookup(r, a) == NoSlot { k := 0; } else if Lookup(r, b) == NoSlot { k := 1; }
    else if Lookup(r, c) == NoSlot { k := 2; } else if Lookup(r, d) == NoSlot { k := 3; } else { k := 4; }
  }

  // ---------------------------------------------------------------------------------------------
  // Whole runs

  /** What an observer adds: the serials of the keypairs a transport packet was accepted under. */
  datatype World = World(device: Device, authenticated: set<nat>)

  function Next(w: World, a: Action): World {
    var seen :=
      if a.TransportArrived? && AcceptedUnder(w.device, a.index, a.authentic).Some?
      then {AcceptedUnder(w.device, a.index, a.authentic).value.serial} else {};
    World(Step(w.device, a), w.authenticated + seen)
  }

  function Run(w: World, actions: seq<Action>): World
    decreases |actions|
  {
    if actions == [] then w else Run(Next(w, actions[0]), actions[1..])
  }

  function Start(nextIndex: U32): World {
    World(Initial(nextIndex), {})
  }

  predicate Has(k: Option<Keypair>, serial: nat) {
    k.Some? && k.value.serial == serial
  }

  /** Where a keypair is: not born, next, current, previous, gone. */
  function Rank(d: Device, serial: nat): nat {
    if serial >= d.births then 0
    else if Has(d.next, serial) then 1
    else if Has(d.current, serial) then 2
    else if Has(d.previous, serial) then 3
    else 4
  }

  lemma StepMovesForward(d: Device, a: Action, serial: nat)
    requires Ok(d)
    ensures Rank(d, serial) <= Rank(Step(d, a), serial)
  {
    hide Allocate;
  }

  lemma {:induction false} RunMovesForward(w: World, actions: seq<Action>, serial: nat)
    requires Ok(w.device)
    ensures Ok(Run(w, actions).device) && Rank(w.device, serial) <= Rank(Run(w, actions).device, serial)
    decreases |actions|
  {
    if actions != [] {
      StepOk(w.device, actions[0]);
      StepMovesForward(w.device, actions[0], serial);
      RunMovesForward(Next(w, actions[0]), actions[1..], serial);
    }
  }

  /** A responder's keypair is current only once a packet was accepted under it. */
  predicate Confirmed(w: World) {
    w.device.current.Some? && !w.device.current.value.initiator ==> w.device.current.value.serial in w.authenticated
  }

  lemma StepConfirmed(w: World, a: Action)
    requires Ok(w.device) && Confirmed(w)
    ensures Confirmed(Next(w, a))
  {
    hide Allocate;
  }

  lemma {:induction false} RunConfirmed(w: World, actions: seq<Action>)
    requires Ok(w.device) && Confirmed(w)
    ensures Confirmed(Run(w, actions))
    decreases |actions|
  {
    if actions != [] {
      StepOk(w.device, actions[0]);
      StepConfirmed(w, actions[0]);
      RunConfirmed(Next(w, actions[0]), actions[1..]);
    }
  }

  lemma {:induction false} RunAppend(w: World, before: seq<Action>, after: seq<Action>)
    ensures Run(w, before + after) == Run(Run(w, before), after)
    decreases |before|
  {
    if before == [] {
      assert before + after == after;
    } else {
      assert (before + after)[1..] == before[1..] + after;
      RunAppend(Next(w, before[0]), before[1..], after);
    }
  }

  /** Over any run, a keypair only moves on: next, current, previous, gone. */
  lemma KeypairsNeverMoveBack(nextIndex: U32, before: seq<Action>, after: seq<Action>, serial: nat)
    requires nextIndex != 0
    ensures Rank(Run(Start(nextIndex), before).device, serial) <= Rank(Run(Start(nextIndex), before + after).device, serial)
  {
    RunMovesForward(Start(nextIndex), before, serial);
    RunAppend(Start(nextIndex), before, after);
    RunMovesForward(Run(Start(nextIndex), before), after, serial);
  }

  /** Over any run, valid keypairs have different non-zero indices, and the registry names exactly them. */
  lemma RegistryMirrorsSlots(nextIndex: U32, actions: seq<Action>)
    requires nextIndex != 0
    ensures var d := Run(Start(nextIndex), actions).device;
            d.registry.current == LocalOf(d.current) && d.registry.next == LocalOf(d.next) && d.registry.previous == LocalOf(d.previous) &&
            (forall s, t :: KeypairAt(d, s).Some? && KeypairAt(d, t).Some? && s != t ==>
               KeypairAt(d, s).value.local != KeypairAt(d, t).value.local) &&
            (forall s :: KeypairAt(d, s).Some? ==>
               KeypairAt(d, s).value.local != 0 && Lookup(d.registry, KeypairAt(d, s).value.local) == s)
  {
    RunMovesForward(Start(nextIndex), actions, 0);
  }

  /** Over any run, a responder-derived keypair is current only after a packet authenticated under it. */
  lemma ResponderKeypairConfirmed(nextIndex: U32, actions: seq<Action>)
    requires nextIndex != 0
    ensures var w := Run(Start(nextIndex), actions);
            w.device.current.Some? && !w.device.current.value.initiator ==> w.device.current.value.serial in w.authenticated
  {
    RunConfirmed(Start(nextIndex), actions);
  }

  /** A step after which a response that would have been accepted no longer is. */
  predicate LosesResponse(d: Device, a: Action) {
    a.InitiationMade? || (a.InitiationArrived? && a.sender != 0) || a.KeysZeroed? || a.TransientScrubbed? ||
    (a.ResponseArrived? && AcceptsResponse(d, a.sender, a.receiver)) ||
    (a.TransportArrived? && AcceptedUnder(d, a.index, a.authentic).Some? && Lookup(d.registry, a.index) == NextSlot)
  }

  /**
   * In mid-handshake, over any run: the response the device waits for stays acceptable exactly until a new
   * initiation is made or received, the response itself arrives, keys are cleared, or a transport
   * packet promotes the next keypair, which clears the handshake's index.
   */
  lemma PendingResponseKeptIff(nextIndex: U32, actions: seq<Action>, a: Action, sender: U32, receiver: U32)
    requires nextIndex != 0 && AcceptsResponse(Run(Start(nextIndex), actions).device, sender, receiver)
    ensures var d := Run(Start(nextIndex), actions).device;
            AcceptsResponse(Step(d, a), sender, receiver) <==> !LosesResponse(d, a)
  {
    RunMovesForward(Start(nextIndex), actions, 0);
    var d := Run(Start(nextIndex), actions).device;
    AllocateOk(d.registry, d.nextIndex, ALLOCATION_TRIES);
    AllocateSucceeds(d.registry, d.nextIndex);
    hide Allocate, Run;
  }

  // ---------------------------------------------------------------------------------------------
  // The code that updates in place

  class WgDevice {
    var current: Option<Keypair>
    var next: Option<Keypair>
    var previous: Option<Keypair>
    var registry: Registry
    var handshake: Handshake
    var nextIndex: U32
    var births: nat

    ghost function Model(): Device
      reads this
    {
      Device(current, next, previous, registry, handshake, nextIndex, births)
    }

    constructor (start: U32)
      ensures Model() == Initial(start)
    {
      current, next, previous := None, None, None;
      registry, handshake, nextIndex, births := EMPTY_REGISTRY, NO_HANDSHAKE, start, 0;
    }

    method AllocateIndex() returns (index: U32)
      modifies this`nextIndex
      ensures (index, nextIndex) == Allocate(registry, old(nextIndex), ALLOCATION_TRIES)
    {
      for attempt := 0 to ALLOCATION_TRIES
        invariant Allocate(registry, nextIndex, ALLOCATION_TRIES - attempt) == Allocate(registry, old(nextIndex), ALLOCATION_TRIES)
      {
        var candidate := nextIndex;
        nextIndex := if nextIndex == 0xFFFF_FFFF then 1 else nextIndex + 1;
        if candidate != 0 && Lookup(registry, candidate) == NoSlot {
          return candidate;
        }
      }
      return 0;
    }

    method RefreshKeypairIndices()
      modifies this`registry
      ensures Model() == Refreshed(old(Model()))
    {
      registry := registry.(handshake := 0);
      registry := registry.(current := if current.Some? then current.value.local else 0);
      registry := registry.(next := if next.Some? then next.value.local else 0);
      registry := registry.(previous := if previous.Some? then previous.value.local else 0);
    }

    method PromoteNextKeypair() returns (promoted: bool)
      modifies this
      ensures Model() == Promote(old(Model())) && promoted == old(next).Some?
    {
      if next.None? {
        return false;
      }
      previous := current;
      current := next;
      next := None;
      RefreshKeypairIndices();
      return true;
    }

    method CreateHandshakeInitiation(created: bool)
      modifies this
      ensures Model() == CreateInitiation(old(Model()), created)
    {
      var index := AllocateIndex();
      if index == 0 {
        return;
      }
      handshake := handshake.(local := index, remote := 0);
      registry := registry.(handshake := index);
      if created {
        handshake := handshake.(state := InitiationCreated);
      }
    }

    method BeginHandshakeSession() returns (begun: bool)
      modifies this
      ensures Model() == BeginSession(old(Model())) && begun == CanBegin(old(handshake))
    {
      if !CanBegin(handshake) {
        return false;
      }
      var derived := Keypair(births, handshake.local, handshake.remote, handshake.state == ResponseReceived);
      births := births + 1;
      if handshake.state == ResponseReceived {
        previous := None;
        if next.Some? {
          previous := next;
          next := None;
        } else {
          previous := current;
        }
        current := Some(derived);
      } else {
        next := Some(derived);
        previous := None;
      }
      RefreshKeypairIndices();
      handshake := Handshake(SessionDerived, 0, 0);
      return true;
    }

    method ConsumeTransportPacket(index: U32, authentic: bool) returns (accepted: bool)
      modifies this
      ensures Model() == ReceiveTransport(old(Model()), index, authentic)
      ensures accepted == AcceptedUnder(old(Model()), index, authentic).Some?
    {
      var slot := Lookup(registry, index);
      var keypair := match slot case CurrentSlot => current case NextSlot => next case PreviousSlot => previous case _ => None;
      if keypair.None? || keypair.value.local != index || !authentic {
        return false;
      }
      if slot == NextSlot {
        var promoted := PromoteNextKeypair();
      }
      return true;
    }
  }
}
