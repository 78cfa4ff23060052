/**
 * The service need not take a prefix of a batch: it gives up its lock between datagrams, so it can refuse
 * one for lack of room and take the next.  The worker then closes the flow.
 */
module ReorderedBatch {
  import opened Counting
  import opened TunnelProtocol
  import opened TextScan
  import opened Routing
  import opened FlowPlane
  import opened FlowPlaneInvariant
  import opened FlowPlaneOperations
  import opened FlowPlaneTheorems
  import opened FlowPlaneRuns
  import opened FlowPlaneNotices
  import opened BackPressure
  import opened BackPressureRuns

  /** Two datagrams: the adapter has no room for the first and takes the second, which goes out. */
  function Sends(input: PolicyInput, now: int): seq<Event> {
    [SendEntered(input, now, true, 0, false), SendEntered(input, now, true, 0, true), SendLeft(Success)]
  }

  lemma RunOne(s: System, e: Event, rest: seq<Event>)
    ensures BackPressure.Run(s, [e] + rest) == BackPressure.Run(BackPressure.Next(s, e), rest)
  {
    hide BackPressure.Next;
    assert ([e] + rest)[1..] == rest;
  }

  lemma AnswersOne(s: System, e: Event, rest: seq<Event>)
    ensures Answers(s, [e] + rest) ==
            (if Answer(s, e).Some? then [Answer(s, e).value] else []) + Answers(BackPressure.Next(s, e), rest)
  {
    hide BackPressure.Next, Answer;
    assert ([e] + rest)[1..] == rest;
  }

  /** The second send leaves with success and the batch returns. */
  lemma TakenAndReturned(s: System)
    requires Serves(s, [QueueFull]) && s.batch.prepared.Some? && BatchOk(s)
    ensures Answer(s, SendLeft(Success)) == Some(Success)
    ensures var t := BackPressure.Next(BackPressure.Next(s, SendLeft(Success)), BatchReturned);
            t.closed && t.watch == s.watch && LiveFlow(t.plane, t.watch)
  {
    hide Invariant, Mine, LiveFlow, CompleteSend, BackPressure.Next, OutboundPool.Disordered;
    CompleteMine(s.plane, s.watch, s.batch.prepared.value, Success);
    LeaveStep(s);
    var left := BackPressure.Next(s, SendLeft(Success));
    assert [QueueFull] + [Success] == [QueueFull, Success];
    RefusedThenTaken();
    ReturnCloses(left);
    ReturnKeeps(left);
  }

  lemma RefusedThenTaken()
    ensures OutboundPool.Disordered([QueueFull, Success])
  {
    var statuses := [QueueFull, Success];
    assert statuses[0] == QueueFull && statuses[1] == Success;
  }

  lemma LeaveStep(s: System)
    requires !s.closed && s.batch.InFlight? && s.batch.prepared.Some?
    ensures BackPressure.Next(s, SendLeft(Success)) ==
            Answered(s, CompleteSend(s.plane, s.batch.prepared.value, Success), Success)
  {
    hide Answered, CompleteSend;
  }

  lemma ReturnKeeps(s: System)
    ensures BackPressure.Next(s, BatchReturned).plane == s.plane && BackPressure.Next(s, BatchReturned).watch == s.watch
  {
  }

  /** This happens to every flow just opened under a policy that stays in force. */
  lemma LaterDatagramTaken(p: Plane, w: Watch, input: PolicyInput, now: int)
    requires JustOpened(p, w) && ResolvePolicy(input) == p.policy
    ensures var called := BackPressure.Next(Opened(p, w), BatchCalled(2));
            Answers(called, Sends(input, now)) == [QueueFull, Success]
    ensures var s := BackPressure.Run(Opened(p, w), [BatchCalled(2)] + (Sends(input, now) + [BatchReturned]));
            s.closed && s.watch == w && LiveFlow(s.plane, w)
  {
    hide *;
    hide BackPressure.Next, BackPressure.Run;
    var first := Opened(p, w);
    StartsOpen(p, w);
    FirstRefused(first, input, now);
    var s := BackPressure.Next(BackPressure.Next(first, BatchCalled(2)), SendEntered(input, now, true, 0, false));
    SecondEntered(s, input, now);
    TakenAndReturned(BackPressure.Next(s, SendEntered(input, now, true, 0, true)));
    Unfolded(first, input, now);
    GivenTwo();
  }

  /** What the run needs to know of the state between two answers. */
  ghost predicate Serves(s: System, statuses: seq<ProtocolStatus>) {
    Invariant(s.plane) && Mine(s.plane, s.watch) && LiveFlow(s.plane, s.watch) && !s.closed && s.writable && s.inbox == [] &&
    s.batch.InFlight? && s.batch.size == 2 && s.batch.statuses == statuses
  }

  lemma StartsOpen(p: Plane, w: Watch)
    requires JustOpened(p, w)
    ensures var s := Opened(p, w);
            Idle(s) && s.writable && s.plane == p && s.watch == w && Invariant(p) && Mine(p, w) && LiveFlow(p, w)
  {
    hide Invariant, Mine, LiveFlow;
  }

  lemma FirstRefused(s: System, input: PolicyInput, now: int)
    requires Idle(s) && s.writable && Invariant(s.plane) && Mine(s.plane, s.watch) && LiveFlow(s.plane, s.watch)
    requires ResolvePolicy(input) == s.plane.policy
    ensures var called := BackPressure.Next(s, BatchCalled(2));
            var e := SendEntered(input, now, true, 0, false);
            Answer(called, e) == Some(QueueFull) &&
            var t := BackPressure.Next(called, e);
            Serves(t, [QueueFull]) && t.batch.prepared.None? && t.watch == s.watch && ResolvePolicy(input) == t.plane.policy
  {
    hide Invariant, Mine, LiveFlow, ResolvePolicy, Answer, BackPressure.Next, Idle, Serving, CanEnter;
    CalledServing(s, 2);
    CalledSame(s);
    var called := BackPressure.Next(s, BatchCalled(2));
    LiveSendAnswer(called, input, now, 0, false);
    assert [] + [QueueFull] == [QueueFull];
  }

  lemma SecondEntered(s: System, input: PolicyInput, now: int)
    requires Serves(s, [QueueFull]) && s.batch.prepared.None? && ResolvePolicy(input) == s.plane.policy
    ensures var e := SendEntered(input, now, true, 0, true);
            Answer(s, e) == None &&
            var t := BackPressure.Next(s, e);
            Serves(t, [QueueFull]) && t.batch.prepared.Some? && BatchOk(t) && t.watch == s.watch
  {
    hide Invariant, Mine, LiveFlow, ResolvePolicy, Answer, BackPressure.Next;
    LiveSendAnswer(s, input, now, 0, true);
    assert [QueueFull] + [] == [QueueFull];
  }

  lemma CalledSame(s: System)
    requires Idle(s) && s.writable
    ensures var called := BackPressure.Next(s, BatchCalled(2));
            called.plane == s.plane && called.watch == s.watch && !called.closed && called.inbox == [] && called.writable && CanEnter(called)
  {
  }

  lemma Unfolded(s: System, input: PolicyInput, now: int)
    ensures var called := BackPressure.Next(s, BatchCalled(2));
            var first := BackPressure.Next(called, SendEntered(input, now, true, 0, false));
            var second := BackPressure.Next(first, SendEntered(input, now, true, 0, true));
            var left := BackPressure.Next(second, SendLeft(Success));
            BackPressure.Run(s, [BatchCalled(2)] + (Sends(input, now) + [BatchReturned])) == BackPressure.Next(left, BatchReturned) &&
            Answers(called, Sends(input, now)) ==
              Given(Answer(called, SendEntered(input, now, true, 0, false))) +
              (Given(Answer(first, SendEntered(input, now, true, 0, true))) + (Given(Answer(second, SendLeft(Success))) + []))
  {
    hide BackPressure.Next, Answer;
    var refused, taken, leave := SendEntered(input, now, true, 0, false), SendEntered(input, now, true, 0, true), SendLeft(Success);
    var called := BackPressure.Next(s, BatchCalled(2));
    var first := BackPressure.Next(called, refused);
    var second := BackPressure.Next(first, taken);
    var left := BackPressure.Next(second, leave);
    assert Sends(input, now) + [BatchReturned] == [refused] + ([taken] + ([leave] + [BatchReturned]));
    assert Sends(input, now) == [refused] + ([taken] + ([leave] + []));
    RunOne(s, BatchCalled(2), Sends(input, now) + [BatchReturned]);
    RunOne(called, refused, [taken] + ([leave] + [BatchReturned]));
    RunOne(first, taken, [leave] + [BatchReturned]);
    RunOne(second, leave, [BatchReturned]);
    assert [BatchReturned] == [BatchReturned] + [];
    RunOne(left, BatchReturned, []);
    AnswersOne(called, refused, [taken] + ([leave] + []));
    AnswersOne(first, taken, [leave] + []);
    AnswersOne(second, leave, []);
  }

  function Given(answer: Option<ProtocolStatus>): seq<ProtocolStatus> {
    if answer.Some? then [answer.value] else []
  }

  lemma GivenTwo()
    ensures Given(Some(QueueFull)) + (Given(None) + (Given(Some(Success)) + [])) == [QueueFull, Success]
  {
  }

  // ---------------------------------------------------------------------------------------------
  // One such run from the initial plane

  const EXAMPLE_TEXT: string := "0.0.0.0/0"
  const EXAMPLE_INPUT :=
    PolicyInput(Some(PeerConfiguration(EXAMPLE_TEXT, EXAMPLE_TEXT, 0, false)), PeerIdentity(0, 1), true)
  const EXAMPLE_REQUEST := OpenRequest(Endpoint(ZERO_IPV4, 1, 0), 0)
  const EXAMPLE_OPENING := Opening([], EXAMPLE_REQUEST, 0, Availability(true, true), [])
  /** Client generation 1, flow generation 1, both slots 0. */
  const EXAMPLE_HANDLE: nat := 0x1_0000_0100

  /** A single zero digit in front of something else. */
  lemma ReadsZero(rest: string, limit: nat)
    requires rest == [] || !IsDigit(rest[0])
    ensures ReadNumber(['0'] + rest, limit) == Some((0, rest))
  {
    var text := ['0'] + rest;
    assert text[1..] == rest;
    assert ReadDigits(rest, 0, limit) == Some((0, rest));
  }

  lemma ReadsZeroOctet(separator: char, rest: string)
    requires !IsDigit(separator)
    ensures ReadOctet(['0'] + ([separator] + rest), separator) == Some((0, rest))
  {
    ReadsZero([separator] + rest, 255);
    assert ([separator] + rest)[1..] == rest;
  }

  lemma ExampleCidr()
    ensures ParseCidr(EXAMPLE_TEXT) == Some(Cidr(ZERO_IPV4, 0))
  {
    hide ReadOctet, ReadNumber;
    assert EXAMPLE_TEXT == ['0'] + (['.'] + "0.0.0/0") && "0.0.0/0" == ['0'] + (['.'] + "0.0/0");
    assert "0.0/0" == ['0'] + (['.'] + "0/0") && "0/0" == ['0'] + (['/'] + "0") && "0" == ['0'] + [];
    ReadsZeroOctet('.', "0.0.0/0");
    ReadsZeroOctet('.', "0.0/0");
    ReadsZeroOctet('.', "0/0");
    ReadsZeroOctet('/', "0");
    ReadsZero([], 32);
    OctetsStep("0/0", 1, "0");
    OctetsStep("0.0/0", 2, "0/0");
    OctetsStep("0.0.0/0", 3, "0.0/0");
    OctetsStep(EXAMPLE_TEXT, 4, "0.0.0/0");
  }

  lemma OctetsStep(text: string, n: nat, rest: string)
    requires n > 0 && ReadOctet(text, if n == 1 then '/' else '.') == Some((0, rest))
    requires ReadOctets(rest, n - 1) == Some((Repeat<Byte>(0, n - 1), "0"))
    ensures ReadOctets(text, n) == Some((Repeat<Byte>(0, n), "0"))
  {
    hide ReadOctet;
  }

  lemma ExampleRoutes()
    ensures ParseRoutes(EXAMPLE_TEXT, []) == ParsedRoutes(true, [Route(ZERO_IPV4, 0, 1)])
  {
    ExampleCidr();
    hide ParseCidr, ItemLength;
    var text := EXAMPLE_TEXT;
    assert |text| == 9 && forall i :: 0 <= i < 9 ==> text[i] != ',';
    assert ItemLength(text) == 9 && text[..9] == text && text[9..] == [];
    assert SkipSeparators(text) == text;
    var route := Route(ZERO_IPV4, 0, 1);
    assert MaskAddress(ZERO_IPV4, 0) == ZERO_IPV4;
    assert [] + [route] == [route];
    assert ParseRoutes([], [route]) == ParsedRoutes(true, [route]);
  }

  lemma ExamplePolicy()
    ensures var policy := ResolvePolicy(EXAMPLE_INPUT);
            policy.available && policy.count == 1 && policy.peer == PeerIdentity(0, 1) && Covered(policy, ZERO_IPV4)
  {
    ExampleCidr();
    ExampleRoutes();
    hide ParseCidr, ParseRoutes, MaskAddress;
    var route := Route(ZERO_IPV4, 0, 1);
    assert SortRoutes([route]) == [route] by {
      assert [route][..0] == [] && SortRoutes([]) == [];
    }
    var policy := ResolvePolicy(EXAMPLE_INPUT);
    assert policy.routes[0] == route;
    assert RouteMatches(route, ZERO_IPV4);
  }

  lemma {:induction false} NothingToApply(p: Plane, slot: nat, now: int)
    requires slot <= MAXIMUM_FLOWS && p.flows == InitialPlane().flows
    ensures ApplyPolicyFrom(p, slot, now) == p
    decreases MAXIMUM_FLOWS - slot
  {
    if slot < MAXIMUM_FLOWS {
      assert p.flows[slot] == FREE_FLOW;
      NothingToApply(p, slot + 1, now);
    }
  }

  lemma {:induction false} NobodyToTell(slot: nat, generation: U32)
    requires slot <= MAXIMUM_CLIENT_CONTEXTS
    ensures AnnouncePolicyFrom(InitialPlane().clients, slot, generation) == InitialPlane().clients
    decreases MAXIMUM_CLIENT_CONTEXTS - slot
  {
    if slot < MAXIMUM_CLIENT_CONTEXTS {
      assert InitialPlane().clients[slot] == FREE_CLIENT;
      NobodyToTell(slot + 1, generation);
    }
  }

  function ExampleStart(): Plane {
    InitialPlane().(policy := ResolvePolicy(EXAMPLE_INPUT), policyGeneration := 2, nextPolicyGeneration := 3)
  }

  lemma ExampleRefreshed()
    ensures FlowPlaneWorld.Run(FlowPlaneWorld.InitialWorld(0), [PolicyRefreshed(EXAMPLE_INPUT, 0)]).plane == ExampleStart()
  {
    var a := PolicyRefreshed(EXAMPLE_INPUT, 0);
    ExampleStep();
    hide Step, ExampleStart;
    var w := FlowPlaneWorld.InitialWorld(0);
    assert FlowPlaneWorld.Next(w, a).plane == Step(w.plane, a);
    assert [a][1..] == [];
  }

  lemma ExampleStep()
    ensures Step(InitialPlane(), PolicyRefreshed(EXAMPLE_INPUT, 0)) == ExampleStart()
  {
    ExamplePolicy();
    hide ResolvePolicy, Covered, ApplyPolicyFrom, AnnouncePolicyFrom;
    NothingToApply(ExampleStart(), 0, 0);
    NobodyToTell(0, 2);
    var p := InitialPlane();
    assert p.policy == NO_POLICY && p.nextPolicyGeneration == 2 && ResolvePolicy(EXAMPLE_INPUT) != NO_POLICY;
    assert ExampleStart().clients == p.clients && ExampleStart().policyGeneration == 2;
    hide InitialPlane;
  }

  /** With every table empty a covered reservation gets slot 0. */
  lemma ReservesFirst(p: Plane, id: ClientId, request: OpenRequest)
    requires IsClient(p.clients, id) && p.flows == InitialPlane().flows && p.tombstones == InitialPlane().tombstones
    requires p.nextPort >= FIRST_PORT && request.remote.reserved == 0 && request.remote.port != 0
    requires p.policy.available && p.policy.peer.activation != 0 && Covered(p.policy, request.remote.address)
    ensures var r := Reserve(p, id, request, 0, Availability(true, true)).1;
            r.status == Success && exists port :: r == Reserved(0, NewFlow(p, id, request, port))
  {
    assert forall s :: 0 <= s < MAXIMUM_FLOWS ==> p.flows[s] == FREE_FLOW;
    assert forall s :: 0 <= s < TOMBSTONE_CAPACITY ==> p.tombstones[s] == FREE_TOMBSTONE;
    hide InitialPlane, Covered, AllocatePort, TupleFree;
    CountZero(p.flows, OwnedBy(id));
    assert ReusableFlow(p.flows, 0) == 0;
    var cleared := p.(tombstones := ClearExpired(p.tombstones, 0));
    RoomForTombstone(p.flows, cleared.tombstones);
    PortAlwaysFound(cleared, request.remote, 0);
    hide HasTombstoneReservation, ClearExpired, Count, FlowPlane.Handle, ReusableFlow;
    var port := AllocatePort(cleared, request.remote, 0, PORT_TRIES).0.value;
    assert ReserveAt(p, id, request, 0, 0).1 == Reserved(0, NewFlow(p, id, request, port));
  }

  lemma RoomForTombstone(flows: Flows, tombstones: Tombstones)
    requires forall s :: 0 <= s < MAXIMUM_FLOWS ==> flows[s] == FREE_FLOW
    requires forall s :: 0 <= s < TOMBSTONE_CAPACITY ==> tombstones[s] == FREE_TOMBSTONE
    ensures HasTombstoneReservation(tombstones, flows)
  {
    CountZero(flows, IsLive);
    CountFull(tombstones, IsFreeTombstone);
  }

  lemma ExampleReserved(p: Plane)
    requires p == CreateClient(ExampleStart()).0
    ensures var r := Reserve(p, ClientId(0, 1), EXAMPLE_REQUEST, 0, Availability(true, true)).1;
            r.status == Success && r.flow == EXAMPLE_HANDLE
    ensures CreateClient(ExampleStart()).1 == ClientId(0, 1) && p.policy == ResolvePolicy(EXAMPLE_INPUT)
  {
    ExamplePolicy();
    hide ResolvePolicy, Covered, Reserve;
    ReservesFirst(p, ClientId(0, 1), EXAMPLE_REQUEST);
  }

  lemma ExampleOpens()
    ensures OpenWorkerFlow(ExampleStart(), EXAMPLE_HANDLE, EXAMPLE_OPENING).2
    ensures OpenWorkerFlow(ExampleStart(), EXAMPLE_HANDLE, EXAMPLE_OPENING).0.policy == ResolvePolicy(EXAMPLE_INPUT)
  {
    var (created, id) := CreateClient(ExampleStart());
    ExampleReserved(created);
    var (reserved, r) := Reserve(created, id, EXAMPLE_REQUEST, 0, Availability(true, true));
    StartInvariant();
    CreateClientInvariant(ExampleStart(), 0);
    ReserveCommits(created, id, EXAMPLE_REQUEST, 0, Availability(true, true));
    hide *;
    NoneElsewhere(created, Watch(id, EXAMPLE_HANDLE));
    NoneElsewhere(reserved, Watch(id, EXAMPLE_HANDLE));
    OpenUnfolded();
  }

  lemma NoneElsewhere(p: Plane, w: Watch)
    ensures RunElsewhere(p, w, []) == p
  {
  }

  lemma OpenUnfolded()
    ensures var (created, id) := CreateClient(ExampleStart());
            var w := Watch(id, EXAMPLE_HANDLE);
            var (reserved, r) := Reserve(RunElsewhere(created, w, []), id, EXAMPLE_REQUEST, 0, Availability(true, true));
            var (committed, ok) := Commit(RunElsewhere(reserved, w, []), r);
            OpenWorkerFlow(ExampleStart(), EXAMPLE_HANDLE, EXAMPLE_OPENING) == (committed, w, r.status == Success && r.flow == EXAMPLE_HANDLE && ok)
  {
    hide CreateClientAt, Reserve, Commit, RunElsewhere;
  }

  lemma StartInvariant()
    ensures Invariant(ExampleStart())
  {
    ExampleRefreshed();
    FlowPlaneWholeRuns.ReachableWorld(0, [PolicyRefreshed(EXAMPLE_INPUT, 0)]);
  }

  /** A reservation that was just granted commits. */
  lemma ReserveCommits(p: Plane, id: ClientId, request: OpenRequest, now: int, availability: Availability)
    requires Invariant(p) && Reserve(p, id, request, now, availability).1.status == Success
    ensures var (q, r) := Reserve(p, id, request, now, availability);
            Commit(q, r).1 && Commit(q, r).0.policy == p.policy
  {
    var slot, port := ReserveGranted(p, id, request, now, availability);
    var f := NewFlow(p, id, request, port);
    HandleRoundTrip(slot, f);
    hide Invariant, Reserve, TupleFree, HasTombstoneReservation, FlowPlane.Handle, DecodeHandle, Covered;
  }

  /** A run from the initial plane in which the service takes the second of two datagrams and not the first. */
  lemma ReorderedFromStart()
    ensures var start := FlowPlaneWorld.Run(FlowPlaneWorld.InitialWorld(0), [PolicyRefreshed(EXAMPLE_INPUT, 0)]).plane;
            var (p, w, got) := OpenWorkerFlow(start, EXAMPLE_HANDLE, EXAMPLE_OPENING);
            got && Answers(BackPressure.Next(Opened(p, w), BatchCalled(2)), Sends(EXAMPLE_INPUT, 0)) == [QueueFull, Success] &&
            var s := BackPressure.Run(Opened(p, w), [BatchCalled(2)] + (Sends(EXAMPLE_INPUT, 0) + [BatchReturned]));
            s.closed && LiveFlow(s.plane, w)
  {
    hide *;
    ExampleRefreshed();
    ExampleOpens();
    StartInvariant();
    OpeningEstablishes(ExampleStart(), EXAMPLE_HANDLE, EXAMPLE_OPENING);
    var (p, w, got) := OpenWorkerFlow(ExampleStart(), EXAMPLE_HANDLE, EXAMPLE_OPENING);
    LaterDatagramTaken(p, w, EXAMPLE_INPUT, 0);
  }
}
