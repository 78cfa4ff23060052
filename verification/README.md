# Tunnel data-plane verification

A Dafny model of the protocol logic of a WireGuard system module and of the socket worker that talks to
it, with proofs that hold for every input, every interleaving and every run.  Check the project with
`dafny verify dfyconfig.toml`.

Code that computes is modelled by functions; code that updates tables in place is modelled by classes
with arrays, and each of their methods is proved equal to a step of the value model.  The results about
whole runs are stated over the value model, with logs that an observer could keep from inputs and
outputs alone.

**The tunnel flow plane.**  `TunnelProtocol` has the limits and records, `Routing` the policy, `FlowPlane`
one function per operation on clients, flows, slabs, tombstones and completion queues.
`FlowPlaneInvariant` is what every operation keeps; `FlowPlaneQueues`, `FlowPlaneClosing`,
`FlowPlaneOperations` and `FlowPlaneDelivery` show that; `FlowPlaneTheorems` holds slab ownership and port
allocation; `FlowPlaneHistory`, `FlowPlaneRuns`, `FlowPlaneWorld` and `FlowPlaneWholeRuns` lift everything to
runs.  `CompletionRing` and `FlowPlaneTables` are the stored form: fixed arrays and a ring per client.

**The worker.**  `OutboundPool`, `OutboundOrder` and `OutboundWorker` cover the shared outbound slots, batches
and their conservation law; `WorkerOperations` the operation queue, the parked polls and the wake event;
`CompletionValidation` the worker's check of what it drains.

**Both together.**  `FlowPlaneNotices` and `FlowPlaneForeign` follow one client with one flow through
everything the rest of the system can do, and `BackPressure` composes the plane with the worker: every
lock scope of a send, every drained completion and every foreign action is a step, and steps interleave
freely.  `BackPressureRuns` starts this from the initial plane and says what the service's answers to a batch
mean; `ReorderedBatch` shows a batch of which the service takes only the later datagram.

**Cryptokey routing and inner packets.**  `PolicyParser` and `SourceFilter` are the two independent readers
of an AllowedIPs text, `RoutingAgreement` proves that they agree, `PrefixBits` that a prefix compares leading
bits, `Ipv6Text` and `AllowedIpText` which texts are accepted and what they mean.  `Checksum`, `InnerPacket`
and `DebugProbe` cover the internet checksum (section 1 of RFC 1071), the padding (section 5.4.6 of the WireGuard
whitepaper) and the ICMP probe.

**Handshakes.**  `HandshakeRate` is the admission of handshake packets (section 5.3 of the WireGuard
whitepaper), `InitiationOrder` the TAI64N stamps and the replay check (section 5.1), `KeySlots` the rotation
of keypairs with the index registry, `ReplayWindow` the counter window.

**Auto-start.**  `AutoStart` models any number of concurrent requests to change the peer started at boot.

`Counting`, `Division` and `TextScan` are shared vocabulary.

Some promises turn out to hold only under a condition.  The code is modelled as it is, the exact
condition is proved in both directions, and where an input shows the failure there is a lemma with it:

- The 20 ms gap to the next accepted initiation is enforced exactly after an acceptance at a positive clock
  reading, or after the greatest stamp there is, which nothing can follow
  (`InitiationOrder.GapEnforcedIff`, `InitiationOrder.UnpacedAtClockZero`).
- Auto-start requests converge to the newest one when its name leaves room for a terminator and, from an
  index whose name does, exactly then (`AutoStart.ConvergesToNewest`, `AutoStart.FullNameNeverStored`); the
  configuration loader always leaves it.
- Stamps in different seconds are ordered as their times exactly when the label does not wrap in between
  (`InitiationOrder.StampOrderIsTimeOrder`, `InitiationOrder.OrderLostAtOrigin`).
- An echoed probe validates exactly when the peer index fits in 32 bits (`DebugProbe.HonestEchoValidates`,
  `DebugProbe.EchoLostAtWidePeer`).
- The service does not always take a prefix of a batch (`ReorderedBatch.ReorderedFromStart`).  Over a whole
  run it takes exactly the accepted prefix of what was queued, and at most once, in the reply that
  closes the flow, some of what follows the first refused datagram (`OutboundOrder.ServedExactly`); a
  batch closes the flow exactly when a send is answered neither success nor queue-full or succeeds
  after a queue-full (`BackPressureRuns.BatchClosesIff`, `OutboundOrder.ReplyClosesIff`).
- A handle with bit 6 or 7 set is as good for sending, but not for waiting
  (`FlowPlaneTheorems.AliasedSendUnmarked`).
- The IPv6 reader accepts trailing colons beyond section 2.2 of RFC 4291 (`Ipv6Text.AcceptsExactly`,
  `Ipv6Text.TrailingColonAccepted`).

Integers are unbounded in Dafny; the 16-, 24- and 32-bit counters and sums of the source are written out
with their wrap-around.  Clock readings are unbounded integers.

## Model

| member | source | states |
|---|---|---|
| `FlowPlaneWholeRuns.DeliveryInOrder` | wg-sysmodule/src/runtime/tunnel_flow_plane.cpp:454-500 | in any run, what was drained for a flow is a byte-for-byte prefix of what was reported delivered for it; the rest is still queued while it is open and was discarded at its close |
| `FlowPlaneWholeRuns.SlabOwnership` | wg-sysmodule/src/runtime/tunnel_flow_plane.cpp:762-800 | in any run, a slab is allocated exactly when some queued datagram of a live client names it, and then exactly one does |
| `FlowPlaneWholeRuns.QueueBounds` | wg-sysmodule/src/runtime/tunnel_flow_plane.cpp:865-899 | in any run, the data count is the number of queued datagrams and at most 7; a committed flow's occupancy is the number of its own and at most 4; other flows have none |
| `FlowPlaneWholeRuns.LiveTuplesDistinct` | wg-sysmodule/src/runtime/tunnel_flow_plane.cpp:704-729 | in any run, two live flows never share source, port and remote |
| `FlowPlaneWholeRuns.TupleQuarantined` | wg-sysmodule/src/runtime/tunnel_flow_plane.cpp:731-760 | with a clock that does not go back, no tuple is reserved again within 60 s of the close of a flow that used it |
| `FlowPlaneWholeRuns.CloseAlwaysRecorded` | wg-sysmodule/src/runtime/tunnel_flow_plane.cpp:682-692 | in any run, free tombstones are never fewer than live flows, so closing a committed flow always records its tuple |
| `FlowPlaneWholeRuns.PolicyCoherent` | wg-sysmodule/src/runtime/tunnel_flow_plane.cpp:89-127 | in any run, every live flow, pending or committed, carries the current peer and generation and a covered remote |
| `FlowPlaneWholeRuns.CommitNeedsSamePolicy` | wg-sysmodule/src/runtime/tunnel_flow_plane.cpp:314-327 | short of a full wrap of the generation, a reservation commits only if no policy change happened since it was granted |
| `FlowPlaneWholeRuns.StepPolicy` | wg-sysmodule/src/runtime/tunnel_flow_plane.cpp:89-127 | only a refresh to a different policy moves the generation, and by one step of the counter |
| `FlowPlaneWholeRuns.ReachableWorld` | wg-sysmodule/src/runtime/tunnel_flow_plane.cpp:51-610 | every run keeps the table invariant, the delivery logs and the generation count |
| `FlowPlaneWholeRuns.PendingFreesTuple` | wg-sysmodule/src/runtime/tunnel_flow_plane.cpp:808-812 | in any run, closing or cancelling a pending flow records no tombstone and leaves its tuple unused by any live flow |
| `FlowPlaneWholeRuns.ControlLostIff` | wg-sysmodule/src/runtime/tunnel_flow_plane.cpp:901-922 | in any run, a control completion is lost exactly at a full ring without an entry of its key, and then nine others or more wait in it |
| `FlowPlaneRuns.StepInvariant` | wg-sysmodule/src/runtime/tunnel_flow_plane.cpp:51-610 | every public operation keeps the table invariant |
| `FlowPlaneRuns.DrainConserves` | wg-sysmodule/src/runtime/tunnel_flow_plane.cpp:454-500 | what a drain shows for a flow followed by what stays queued is what was queued |
| `FlowPlaneRuns.DrainFits` | wg-sysmodule/src/runtime/tunnel_flow_plane.cpp:464-497 | drained records lie within the drained payload and within both capacities |
| `FlowPlaneWorld.StepLog` | wg-sysmodule/src/runtime/tunnel_flow_plane.cpp:51-610 | each action keeps delivered = drained + queued, and delivered = drained + discarded after a close |
| `FlowPlaneHistory.StoreQueued` | wg-sysmodule/src/runtime/tunnel_flow_plane.cpp:580-586 | storing appends the payload to its own flow's queue and touches no other flow's |
| `FlowPlaneHistory.PopQueued` | wg-sysmodule/src/runtime/tunnel_flow_plane.cpp:464-497 | popping takes the head of the entry's own flow and touches no other flow's queue |
| `FlowPlaneHistory.CloseSlotQuarantined` | wg-sysmodule/src/runtime/tunnel_flow_plane.cpp:802-821 | a close keeps unexpired tombstones and records the tuple of a committed flow |
| `FlowPlaneTheorems.ProbesDistinct` | wg-sysmodule/src/runtime/tunnel_flow_plane.cpp:709-714 | the 16384 probes of an allocation visit different ports across the wrap |
| `FlowPlaneTheorems.PortAlwaysFound` | wg-sysmodule/src/runtime/tunnel_flow_plane.cpp:704-729 | port allocation never fails, because at most 32 ports can be blocked |
| `FlowPlaneTheorems.RefreshIdempotent` | wg-sysmodule/src/runtime/tunnel_flow_plane.cpp:109-115 | refreshing again with the same input changes nothing |
| `FlowPlaneTheorems.CompleteSendMarksIff` | wg-sysmodule/src/runtime/tunnel_flow_plane.cpp:416-433 | a completed send changes a flow exactly when it names the flow by its own handle, and then only the waiter mark |
| `FlowPlaneTheorems.AliasedSendUnmarked` | wg-sysmodule/src/runtime/tunnel_flow_plane.cpp:367-433 | a handle with bit 6 or 7 set prepares sends like the own one, but completing them marks nothing |
| `FlowPlaneTheorems.NamesUnique` | wg-sysmodule/src/runtime/tunnel_flow_plane.cpp:865-899 | two queue positions that name the same slab are the same position |
| `FlowPlaneTheorems.SlabHasOwner` | wg-sysmodule/src/runtime/tunnel_flow_plane.cpp:762-776 | an allocated slab has a queue position that names it |
| `FlowPlaneInvariant.HandleRoundTrip` | wg-sysmodule/src/runtime/tunnel_flow_plane.cpp:644-672 | decoding an encoded handle gives back slot, generation and client |
| `FlowPlaneInvariant.HandleAliases` | wg-sysmodule/src/runtime/tunnel_flow_plane.cpp:661-672 | decoding ignores bits 6 and 7, so four handles decode alike |
| `FlowPlaneQueues.DroppedControl` | wg-sysmodule/src/runtime/tunnel_flow_plane.cpp:901-922 | a control completion is lost only at a full ring that holds at least nine others with different keys |
| `FlowPlaneQueues.ControlPushedOk` | wg-sysmodule/src/runtime/tunnel_flow_plane.cpp:901-922 | pushing a control completion keeps the queue bounds, the keys distinct and the queued datagrams |
| `FlowPlaneClosing.CloseSlotSound` | wg-sysmodule/src/runtime/tunnel_flow_plane.cpp:802-863 | closing a slot keeps slabs, occupancies, tombstones and tuples consistent |
| `FlowPlaneClosing.QuarantineRecords` | wg-sysmodule/src/runtime/tunnel_flow_plane.cpp:731-748 | with a free tombstone per live flow, the quarantine finds one |
| `FlowPlaneOperations.CreateClientInvariant` | wg-sysmodule/src/runtime/tunnel_flow_plane.cpp:51-68 | opening a client keeps the invariant |
| `FlowPlaneOperations.DestroyClientInvariant` | wg-sysmodule/src/runtime/tunnel_flow_plane.cpp:70-87 | destroying a client keeps the invariant |
| `FlowPlaneOperations.RefreshPolicyInvariant` | wg-sysmodule/src/runtime/tunnel_flow_plane.cpp:89-127 | a refresh keeps the invariant and restores policy coherence |
| `FlowPlaneOperations.ReserveGranted` | wg-sysmodule/src/runtime/tunnel_flow_plane.cpp:184-292 | a granted reservation takes a slot that was not live and a tuple that is free and not quarantined |
| `FlowPlaneOperations.ReserveRefused` | wg-sysmodule/src/runtime/tunnel_flow_plane.cpp:184-254 | a refused reservation changes at most expired tombstones and the port counter |
| `FlowPlaneOperations.ReserveInvariant` | wg-sysmodule/src/runtime/tunnel_flow_plane.cpp:184-292 | reserving keeps the invariant |
| `FlowPlaneOperations.CommitInvariant` | wg-sysmodule/src/runtime/tunnel_flow_plane.cpp:314-327 | committing keeps the invariant |
| `FlowPlaneOperations.CancelInvariant` | wg-sysmodule/src/runtime/tunnel_flow_plane.cpp:329-337 | cancelling keeps the invariant |
| `FlowPlaneOperations.OpenFlowInvariant` | wg-sysmodule/src/runtime/tunnel_flow_plane.cpp:294-312 | reserve-and-commit keeps the invariant |
| `FlowPlaneOperations.CloseFlowInvariant` | wg-sysmodule/src/runtime/tunnel_flow_plane.cpp:532-544 | closing by handle keeps the invariant |
| `FlowPlaneOperations.InvalidateInvariant` | wg-sysmodule/src/runtime/tunnel_flow_plane.cpp:602-610 | invalidating an activation keeps the invariant |
| `FlowPlaneOperations.PrepareSendInvariant` | wg-sysmodule/src/runtime/tunnel_flow_plane.cpp:367-414 | preparing a send keeps the invariant |
| `FlowPlaneOperations.CompleteSendInvariant` | wg-sysmodule/src/runtime/tunnel_flow_plane.cpp:416-433 | completing a send keeps the invariant |
| `FlowPlaneOperations.NotifyCapacityInvariant` | wg-sysmodule/src/runtime/tunnel_flow_plane.cpp:435-452 | announcing capacity keeps the invariant |
| `FlowPlaneDelivery.DeliverOutcome` | wg-sysmodule/src/runtime/tunnel_flow_plane.cpp:546-600 | a datagram is stored for the flow its token names, or nothing changes |
| `FlowPlaneDelivery.DeliverInvariant` | wg-sysmodule/src/runtime/tunnel_flow_plane.cpp:546-600 | delivering keeps the invariant |
| `FlowPlaneDelivery.DrainInvariant` | wg-sysmodule/src/runtime/tunnel_flow_plane.cpp:454-500 | draining keeps the invariant |
| `FlowPlaneDelivery.ServeReceiveInvariant` | wg-sysmodule/src/runtime/daemon_runtime.cpp:1104-1118 | the service drain, with its event, keeps the invariant: a non-empty queue is signalled |
| `FlowPlaneDelivery.InitialInvariant` | wg-sysmodule/src/runtime/tunnel_flow_plane.hpp:254-270 | the initial tables satisfy the invariant |
| `CompletionRing.AppendedQueue` | wg-sysmodule/src/runtime/tunnel_flow_plane.cpp:918-921 | storing behind the last entry appends to the queue wherever the ring has wrapped to |
| `CompletionRing.OverwrittenQueue` | wg-sysmodule/src/runtime/tunnel_flow_plane.cpp:906-913 | rewriting an entry in place replaces just that queue entry |
| `CompletionRing.FrontRemovedQueue` | wg-sysmodule/src/runtime/tunnel_flow_plane.cpp:944-959 | removing at the head drops the queue's first entry |
| `CompletionRing.RestartedQueue` | wg-sysmodule/src/runtime/tunnel_flow_plane.cpp:796-799 | a rewritten ring holds exactly the retained entries |
| `FlowPlaneTables.TunnelFlowPlane.constructor` | wg-sysmodule/src/runtime/tunnel_flow_plane.hpp:254-270 | the fresh tables are the initial plane |
| `FlowPlaneTables.TunnelFlowPlane.CreateClient` | wg-sysmodule/src/runtime/tunnel_flow_plane.cpp:51-68 | takes the first free slot with a fresh generation, or refuses; keeps the invariant |
| `FlowPlaneTables.TunnelFlowPlane.DestroyClient` | wg-sysmodule/src/runtime/tunnel_flow_plane.cpp:70-87 | closes the client's flows quietly, releases every slab it queued, frees the slot, keeps the invariant |
| `FlowPlaneTables.TunnelFlowPlane.RefreshPolicy` | wg-sysmodule/src/runtime/tunnel_flow_plane.cpp:89-127 | replaces the policy, closes or re-stamps every live flow, announces once, keeps the invariant |
| `FlowPlaneTables.TunnelFlowPlane.ReserveConnectedUdpFlow` | wg-sysmodule/src/runtime/tunnel_flow_plane.cpp:184-292 | refuses in the specified order with the specified status, or grants the first reusable slot and first free tuple; keeps the invariant |
| `FlowPlaneTables.TunnelFlowPlane.CommitFlowReservation` | wg-sysmodule/src/runtime/tunnel_flow_plane.cpp:314-327 | commits exactly when the reservation still fits; keeps the invariant |
| `FlowPlaneTables.TunnelFlowPlane.CancelFlowReservation` | wg-sysmodule/src/runtime/tunnel_flow_plane.cpp:329-337 | frees a still pending flow only; keeps the invariant |
| `FlowPlaneTables.TunnelFlowPlane.OpenConnectedUdpFlow` | wg-sysmodule/src/runtime/tunnel_flow_plane.cpp:294-312 | reserve then commit, or cancel; keeps the invariant |
| `FlowPlaneTables.TunnelFlowPlane.PrepareSend` | wg-sysmodule/src/runtime/tunnel_flow_plane.cpp:367-414 | every status and the waiter mark as specified; keeps the invariant |
| `FlowPlaneTables.TunnelFlowPlane.CompleteSend` | wg-sysmodule/src/runtime/tunnel_flow_plane.cpp:416-433 | marks or clears the waiter of exactly the flow with that handle; keeps the invariant |
| `FlowPlaneTables.TunnelFlowPlane.NotifyOutboundCapacityAvailable` | wg-sysmodule/src/runtime/tunnel_flow_plane.cpp:435-452 | clears each waiting flow of the peer and queues its writable completion; keeps the invariant |
| `FlowPlaneTables.TunnelFlowPlane.ReceiveCompletions` | wg-sysmodule/src/runtime/tunnel_flow_plane.cpp:454-500 | fills the caller's buffers with exactly the specified records and bytes and leaves the rest of both untouched; keeps the invariant |
| `FlowPlaneTables.TunnelFlowPlane.CloseFlow` | wg-sysmodule/src/runtime/tunnel_flow_plane.cpp:532-544 | closes by handle as specified; keeps the invariant |
| `FlowPlaneTables.TunnelFlowPlane.DeliverInboundUdpDatagram` | wg-sysmodule/src/runtime/tunnel_flow_plane.cpp:546-600 | every disposition as specified; keeps the invariant |
| `FlowPlaneTables.TunnelFlowPlane.InvalidatePeerActivation` | wg-sysmodule/src/runtime/tunnel_flow_plane.cpp:602-610 | closes exactly the committed flows of the activation; keeps the invariant |
| `FlowPlaneTables.TunnelFlowPlane.FindFlowSlot` | wg-sysmodule/src/runtime/tunnel_flow_plane.cpp:624-638 | finds the slot a client's handle names |
| `FlowPlaneTables.TunnelFlowPlane.FindTokenSlot` | wg-sysmodule/src/runtime/tunnel_flow_plane.cpp:560-564 | the table scan finds the flow with exactly this handle, if there is one |
| `FlowPlaneTables.TunnelFlowPlane.ClearExpiredTombstones` | wg-sysmodule/src/runtime/tunnel_flow_plane.cpp:674-680 | clears exactly the expired tombstones |
| `FlowPlaneTables.TunnelFlowPlane.AllocateFlowGeneration` | wg-sysmodule/src/runtime/tunnel_flow_plane.cpp:694-702 | the next 24-bit generation that is not zero, and the counter behind it |
| `FlowPlaneTables.TunnelFlowPlane.AllocateVirtualTuple` | wg-sysmodule/src/runtime/tunnel_flow_plane.cpp:704-729 | the first free tuple in probe order and the counter behind it |
| `FlowPlaneTables.TunnelFlowPlane.QuarantineTuple` | wg-sysmodule/src/runtime/tunnel_flow_plane.cpp:731-748 | records the tuple in the first free tombstone |
| `FlowPlaneTables.TunnelFlowPlane.AllocateInboundSlab` | wg-sysmodule/src/runtime/tunnel_flow_plane.cpp:762-770 | takes the first free slab |
| `FlowPlaneTables.TunnelFlowPlane.RemoveFlowCompletions` | wg-sysmodule/src/runtime/tunnel_flow_plane.cpp:778-800 | drops exactly the flow's datagrams, releases their slabs, keeps the other entries in order |
| `FlowPlaneTables.TunnelFlowPlane.CloseFlowSlot` | wg-sysmodule/src/runtime/tunnel_flow_plane.cpp:802-863 | closes one slot as specified, pending, silent or announced |
| `FlowPlaneTables.TunnelFlowPlane.EnqueueDataCompletion` | wg-sysmodule/src/runtime/tunnel_flow_plane.cpp:865-899 | appends, or gives the slab and the occupancy back |
| `FlowPlaneTables.TunnelFlowPlane.EnqueueControlCompletion` | wg-sysmodule/src/runtime/tunnel_flow_plane.cpp:901-922 | coalesces by type and flow, appends, or drops at a full ring |
| `FlowPlaneTables.TunnelFlowPlane.EnqueuePolicyChanged` | wg-sysmodule/src/runtime/tunnel_flow_plane.cpp:924-936 | tells every client of the new generation |
| `FlowPlaneTables.TunnelFlowPlane.RemoveCompletionFront` | wg-sysmodule/src/runtime/tunnel_flow_plane.cpp:944-959 | takes the first entry and its data count |
| `FlowPlaneTables.TunnelFlowPlane.SelectPolicyRoute` | wg-sysmodule/src/runtime/tunnel_flow_plane.cpp:1102-1112 | the first matching route of the table |
| `FlowPlaneTables.AllocateNonZero` | wg-sysmodule/src/runtime/tunnel_flow_plane.cpp:16-23 | a non-zero value and the counter's non-zero successor |
| `CompletionValidation.ValidateTunnelCompletionDrain` | mitm-sysmodule/src/tunnel_completion_validation.hpp:11-28 | accepts exactly the drains whose datagram records fit the buffers |
| `CompletionValidation.DrainsPassValidation` | mitm-sysmodule/src/tunnel_completion_validation.hpp:11-28 | in any run of the plane, whatever a client drains passes the worker's check |
| `BackPressure.WritabilityNeverLost` | mitm-sysmodule/src/tunnel_flow_worker.cpp:697-798 | after any interleaving, a worker flow that is open but not writable has its plane flow marked, or a writable notice, or a closed notice, queued or in hand |
| `BackPressure.ClosureNeverLost` | mitm-sysmodule/src/tunnel_flow_worker.cpp:273-380 | after any interleaving, an open worker flow is live in the plane or a closed notice is queued or in hand |
| `BackPressure.FreedCapacityWakes` | wg-sysmodule/src/runtime/runtime_effect_executor.cpp:158-167 | capacity freed for a marked flow's peer queues its writable notice |
| `BackPressure.WritableNoticeWakes` | mitm-sysmodule/src/tunnel_flow_submission_state.hpp:31-36 | handling that notice makes the flow writable |
| `BackPressureRuns.NothingLostFromStart` | mitm-sysmodule/src/tunnel_flow_worker.cpp:992-1048 | from the initial plane, after any run, any opening that succeeds and any events, an open worker flow is live or a closed notice is on its way, and one that is not writable is marked or a writable or closed notice is on its way |
| `BackPressureRuns.OpeningEstablishes` | mitm-sysmodule/src/tunnel_flow_worker.cpp:992-1048 | a new client that reserves and commits a flow, with anything in between, holds just that flow, live in the plane |
| `BackPressureRuns.BatchClosesIff` | mitm-sysmodule/src/tunnel_flow_worker.cpp:747-791 | whatever happens while a batch is served datagram by datagram, the worker closes the flow on return exactly when some send was answered neither success nor queue-full, or one succeeded after a queue-full |
| `BackPressureRuns.LiveSendAnswer` | wg-sysmodule/src/runtime/daemon_runtime.cpp:1021-1049 | for a live flow under a steady policy only the adapter refuses a send, with queue-full, and the flow stays live |
| `ReorderedBatch.LaterDatagramTaken` | common/include/wgnx/tunnel_batch.hpp:10-33 | every flow just opened has a run in which the service refuses the first of two datagrams, takes the second, and the worker closes the flow while the plane has it live |
| `ReorderedBatch.ReorderedFromStart` | wg-sysmodule/src/runtime/daemon_runtime.cpp:1012-1102 | such a run from the initial plane |
| `BackPressure.EnterOk` | wg-sysmodule/src/runtime/daemon_runtime.cpp:1021-1049 | the first lock scope of a send keeps the protocol invariant |
| `BackPressure.LeaveOk` | wg-sysmodule/src/runtime/daemon_runtime.cpp:1055-1098 | the second lock scope of a send keeps the protocol invariant, whatever the outcome |
| `BackPressure.ReturnedOk` | mitm-sysmodule/src/tunnel_flow_worker.cpp:747-791 | acting on a batch's dispositions keeps the protocol invariant |
| `BackPressure.DrainMoves` | mitm-sysmodule/src/tunnel_flow_worker.cpp:278-300 | a drain moves every notice from the queue to the reader and loses none |
| `BackPressure.HandledOk` | mitm-sysmodule/src/tunnel_flow_worker.cpp:333-354 | handling one completion keeps the protocol invariant |
| `FlowPlaneNotices.RoomInRing` | wg-sysmodule/src/runtime/tunnel_flow_plane.cpp:914-916 | a client with one flow has at most ten queued entries, so its control completions are never dropped |
| `FlowPlaneNotices.PushedNotices` | wg-sysmodule/src/runtime/tunnel_flow_plane.cpp:901-922 | a pushed notice is queued and no other notice leaves |
| `FlowPlaneNotices.CloseGood` | wg-sysmodule/src/runtime/tunnel_flow_plane.cpp:802-863 | an announced close leaves the client a closed notice; other closes leave it alone |
| `FlowPlaneForeign.ForeignGood` | wg-sysmodule/src/runtime/tunnel_flow_plane.cpp:51-610 | nothing other clients, peers or the policy do takes a client's mark or notices away |
| `FlowPlaneForeign.CapacityReaches` | wg-sysmodule/src/runtime/tunnel_flow_plane.cpp:435-452 | freed capacity replaces a flow's mark by a writable notice |
| `RoutingAgreement.RoutingAgrees` | wg-sysmodule/src/wireguard/inner_packet.cpp:406-426 | for every accepted AllowedIPs text, an address is covered by a route exactly when the source filter allows it |
| `RoutingAgreement.PacketAgrees` | wg-sysmodule/src/wireguard/inner_packet.cpp:406-426 | for every acceptable IPv4 packet, the filter passes it exactly when its source is routed |
| `RoutingAgreement.SelectsLongestPrefix` | wg-sysmodule/src/runtime/tunnel_flow_plane.cpp:1102-1112 | selection returns a match of greatest prefix length, the first written among equals, and nothing only when nothing matches |
| `RoutingAgreement.OrderedUnique` | wg-sysmodule/src/runtime/tunnel_flow_plane.cpp:1021-1029 | the sort order determines the table, whatever sorting algorithm is used |
| `RoutingAgreement.SortOrders` | wg-sysmodule/src/runtime/tunnel_flow_plane.cpp:1021-1029 | the sorted table is ordered and a permutation of the routes read |
| `RoutingAgreement.ItemAgrees` | wg-sysmodule/src/wireguard/inner_packet.cpp:219-237 | an item the plane accepts is read by the filter as the same address and prefix |
| `RoutingAgreement.MatchAgrees` | wg-sysmodule/src/wireguard/inner_packet.cpp:239-253 | a normalised route matches exactly the addresses the filter's prefix matches |
| `RoutingAgreement.RoutesAgree` | wg-sysmodule/src/runtime/tunnel_flow_plane.cpp:985-1017 | from any point of the text, the routes added match exactly what the rest of the text allows |
| `Routing.SelectFrom` | wg-sysmodule/src/runtime/tunnel_flow_plane.cpp:1106-1110 | the first matching route at or after a position |
| `PolicyParser.ReadNumberAt` | wg-sysmodule/src/runtime/tunnel_flow_plane.cpp:1043-1056 | reads a run of digits at the cursor and stops at the first other character |
| `PolicyParser.ParseIpv4Cidr` | wg-sysmodule/src/runtime/tunnel_flow_plane.cpp:1036-1086 | accepts exactly the specified CIDR texts, with their address and prefix |
| `PolicyParser.ParseRouteList` | wg-sysmodule/src/runtime/tunnel_flow_plane.cpp:985-1017 | reads the specified routes; on rejection the routes read before it remain |
| `PolicyParser.ParseAndNormalizePolicy` | wg-sysmodule/src/runtime/tunnel_flow_plane.cpp:969-1034 | resolves the policy as specified, with every rejection |
| `SourceFilter.ParseDecimalText` | wg-sysmodule/src/wireguard/inner_packet.cpp:102-118 | reads exactly the decimal texts within the limit |
| `SourceFilter.ParseIpv4Address` | wg-sysmodule/src/wireguard/inner_packet.cpp:120-142 | reads exactly four decimal octets between dots |
| `PrefixBits.PrefixIsLeadingBits` | wg-sysmodule/src/wireguard/inner_packet.cpp:239-253 | the filter's byte-wise prefix comparison holds exactly when the leading bits agree, for IPv4 and IPv6 at every length |
| `AllowedIpText.ItemExact` | wg-sysmodule/src/wireguard/inner_packet.cpp:219-237 | an item is accepted with an address and prefix exactly when it prints them around its last slash, IPv6 in one of its forms with at most 128 bits or dotted IPv4 with at most 32 |
| `AllowedIpText.OctetsExact` | wg-sysmodule/src/wireguard/inner_packet.cpp:120-142 | a text is read as bytes exactly when it prints them in decimal between dots |
| `AllowedIpText.DecimalExact` | wg-sysmodule/src/wireguard/inner_packet.cpp:102-118 | a text is read as a number exactly when it is a decimal printing of it, leading zeros allowed, within the limit |
| `SourceFilter.AllowedIpsContainSource` | wg-sysmodule/src/wireguard/inner_packet.cpp:406-426 | accepts exactly the packets whose source some item allows |
| `Ipv6Text.FullFormRoundTrip` | wg-sysmodule/src/wireguard/inner_packet.cpp:144-217 | eight words printed in hexadecimal, each in any width that is enough for it and any case per letter, are read as their sixteen bytes |
| `Ipv6Text.CompressedFormRoundTrip` | wg-sysmodule/src/wireguard/inner_packet.cpp:144-217 | the same with any run of at least one zero word written as "::" |
| `Ipv6Text.AcceptsExactly` | wg-sysmodule/src/wireguard/inner_packet.cpp:144-217 | a text is read as sixteen bytes exactly when it prints their words in one of the two forms; one or two colons may trail eight words and one may trail words behind "::" |
| `Ipv6Text.ReadWordExact` | wg-sysmodule/src/wireguard/inner_packet.cpp:165-178 | a component is read as a word exactly when it is a printing of it by division by 16 |
| `Ipv6Text.EveryWordSpelled` | wg-sysmodule/src/wireguard/inner_packet.cpp:165-178 | every word has such a printing in every width that is enough and every choice of cases, and it is read back |
| `Ipv6Text.TrailingColonAccepted` | wg-sysmodule/src/wireguard/inner_packet.cpp:144-217 | "::1:" is read as "::1" |
| `Ipv6Text.ParseIpv6Address` | wg-sysmodule/src/wireguard/inner_packet.cpp:144-217 | the scan over offsets, the expansion in place and the stores compute the specified sixteen bytes |
| `Ipv6Text.ExpandInPlace` | wg-sysmodule/src/wireguard/inner_packet.cpp:200-211 | moving words to the end of the table and blanking the gap expands the compression |
| `Ipv6Text.ToBytes` | wg-sysmodule/src/wireguard/inner_packet.cpp:212-215 | each word's high byte comes before its low byte |
| `Checksum.StoredChecksumValid` | wg-sysmodule/src/wireguard/debug_probe.cpp:38-55 | storing the checksum in a zero field always validates, at every length, even where the 32-bit sum wraps |
| `Checksum.OnlyChecksumValid` | wg-sysmodule/src/wireguard/inner_packet.cpp:43-57 | up to 131074 bytes no other word validates, except all ones where the checksum is zero |
| `Checksum.NoCarry` | wg-sysmodule/src/wireguard/debug_probe.cpp:38-55 | the checksum of a 32-bit sum never carries it out of range |
| `Checksum.ValidityIsResidue` | wg-sysmodule/src/wireguard/inner_packet.cpp:43-57 | validity is a positive sum divisible by 65535 |
| `Checksum.FoldResidue` | wg-sysmodule/src/wireguard/inner_packet.cpp:53-55 | folding keeps the residue modulo 65535 and never makes a positive sum zero |
| `Checksum.FoldSum` | wg-sysmodule/src/wireguard/inner_packet.cpp:53-55 | the folding loop of both computes the 16-bit fold |
| `Checksum.ComputeInternetChecksum` | wg-sysmodule/src/wireguard/debug_probe.cpp:38-55 | the builder's own loop computes the complement of the folded 32-bit sum, wrap-around included |
| `Checksum.HasValidInternetChecksum` | wg-sysmodule/src/wireguard/inner_packet.cpp:43-57 | the validator's own loop accepts exactly the inputs whose folded sum is all ones |
| `InnerPacket.PaddingRoundTrip` | wg-sysmodule/src/wireguard/inner_packet.cpp:348-404 | the padded validator recovers the size and version of every valid packet at every mtu |
| `InnerPacket.PaddedSizeBounds` | wg-sysmodule/src/wireguard/data.hpp:15-30 | padding adds at most 15 bytes and does not pass the mtu when the packet fits in it |
| `InnerPacket.PaddedAcceptsOnly` | wg-sysmodule/src/wireguard/inner_packet.cpp:348-404 | what the padded validator accepts is a valid packet and at most 15 zeros |
| `InnerPacket.Ipv4ValidatorsAgree` | wg-sysmodule/src/wireguard/inner_packet.cpp:308-346 | on IPv4 payloads the two padded validators accept the same packets with the same size |
| `InnerPacket.ValidateInnerIpv4Packet` | wg-sysmodule/src/wireguard/inner_packet.cpp:257-280 | the outcome as specified, checksum loop included |
| `InnerPacket.ValidatePaddedInnerIpPacket` | wg-sysmodule/src/wireguard/inner_packet.cpp:348-404 | the outcome, size and version as specified |
| `InnerPacket.PadAndFill` | wg-sysmodule/src/wireguard/data.cpp:85-87 | copies and zero-fills exactly the padded payload and nothing around it |
| `DebugProbe.ProbeIsValidPacket` | wg-sysmodule/src/wireguard/debug_probe.cpp:166-216 | every built probe passes the inner packet validator |
| `DebugProbe.HonestEchoValidates` | wg-sysmodule/src/wireguard/debug_probe.cpp:218-309 | every honest echo validates with the probe's action, generation, peer and sequence exactly when the peer index fits 32 bits |
| `DebugProbe.EchoReplyIsHonest` | wg-sysmodule/src/wireguard/debug_probe.cpp:218-309 | an echo reply built from the request is an honest echo, so honest echoes exist |
| `DebugProbe.EchoLostAtWidePeer` | wg-sysmodule/src/wireguard/debug_probe.cpp:218-309 | at peer index 2^32 an honest echo of the probe is refused as another peer's |
| `DebugProbe.BuildDebugIcmpEchoRequest` | wg-sysmodule/src/wireguard/debug_probe.cpp:166-216 | writes exactly the 44 bytes of the probe and nothing behind them, or nothing at all |
| `HandshakeRate.FreeAdmissionBounded` | wg-sysmodule/src/wireguard/handshake.cpp:348-370 | over any window of any run, 50 ms times the packets accepted without a cookie is at most 250 ms plus the window |
| `HandshakeRate.SourceAdmissionBounded` | wg-sysmodule/src/wireguard/handshake.cpp:1174-1201 | over any window of any run, 50 ms times the packets accepted under load from one source is at most 250 ms plus the window, evictions included |
| `HandshakeRate.AcceptedUnderLoad` | wg-sysmodule/src/wireguard/handshake.cpp:1193-1200 | under load with a cookie, acceptance is decided by the source's own bucket, as if it had never been evicted, and by room in the table |
| `HandshakeRate.EvictionKeepsLevels` | wg-sysmodule/src/wireguard/handshake.cpp:372-397 | claiming a free entry, or one idle for more than a second, changes no source's level |
| `HandshakeRate.LevelStep` | wg-sysmodule/src/wireguard/handshake.cpp:1174-1201 | one packet lowers its own source's level by the cost when charged and no other level |
| `HandshakeRate.ConsumeOk` | wg-sysmodule/src/wireguard/handshake.cpp:348-362 | one consumption against the capped line that a bucket's level follows |
| `HandshakeRate.ConsumeRate` | wg-sysmodule/src/wireguard/handshake.cpp:348-362 | allowed exactly when the level, which grows with time up to the cap, reaches the cost; the later level is the earlier one less the charge plus the time passed, capped |
| `HandshakeRate.ResponderState.IsUnderLoad` | wg-sysmodule/src/wireguard/handshake.cpp:364-370 | charges the arrival bucket and extends the load period |
| `HandshakeRate.ResponderState.FindRateLimitEntry` | wg-sysmodule/src/wireguard/handshake.cpp:372-397 | the source's entry, else the last reusable one, reset; none for a source without an address |
| `HandshakeRate.ResponderState.AdmitPacket` | wg-sysmodule/src/wireguard/handshake.cpp:1174-1201 | the decision and the new tables as specified |
| `InitiationOrder.StampsStrictlyIncrease` | wg-sysmodule/src/wireguard/handshake.cpp:787-796 | between resets, accepted initiations carry strictly increasing stamps |
| `InitiationOrder.AcceptedFarApart` | wg-sysmodule/src/wireguard/handshake.cpp:797-802 | after an initiation accepted at a positive clock reading, the next accepted one is more than 20 ms later |
| `InitiationOrder.GapEnforcedIff` | wg-sysmodule/src/wireguard/handshake.cpp:797-802 | the gap is enforced exactly after an acceptance at a positive clock reading, or when no newer stamp exists |
| `InitiationOrder.UnpacedAtClockZero` | wg-sysmodule/src/wireguard/handshake.cpp:797-802 | after an acceptance at clock zero, a newer stamp is accepted 1 ns later |
| `InitiationOrder.StampOrder` | wg-sysmodule/src/wireguard/handshake.cpp:55-66 | byte order of stamps is the order of their seconds, then of their rounded nanoseconds |
| `InitiationOrder.StampOrderIsTimeOrder` | wg-sysmodule/src/wireguard/handshake.cpp:200-211 | in different seconds, byte order is time order exactly when the label does not wrap in between |
| `InitiationOrder.StampsIncrease` | wg-sysmodule/src/wireguard/handshake.cpp:200-211 | stamps made at least 2^24 ns apart increase despite rounding, exactly when the label does not wrap in between |
| `InitiationOrder.OrderLostAtOrigin` | wg-sysmodule/src/wireguard/handshake.cpp:209-210 | a time before the label origin has a greater stamp than time zero |
| `InitiationOrder.EqualStamps` | wg-sysmodule/src/wireguard/handshake.cpp:204-207 | stamps are equal exactly in the same second and the same 2^24 ns slot |
| `InitiationOrder.BigEndianOrder` | wg-sysmodule/src/wireguard/handshake.cpp:55-66 | big-endian bytes compare as the numbers do |
| `InitiationOrder.RoundDownToPowerOfTwo` | wg-sysmodule/src/wireguard/handshake.cpp:43-53 | the largest power of two not above the value |
| `InitiationOrder.RoundingIsPowerOfTwo` | wg-sysmodule/src/wireguard/handshake.cpp:204-207 | the rounding unit is 2^24 ns |
| `InitiationOrder.HandshakeGuard.ConsumeInitiation` | wg-sysmodule/src/wireguard/handshake.cpp:787-814 | accepts and records, or refuses and keeps everything |
| `KeySlots.KeypairsNeverMoveBack` | wg-sysmodule/src/wireguard/device.cpp:153-165 | over any run, a keypair only moves next, current, previous, gone |
| `KeySlots.RegistryMirrorsSlots` | wg-sysmodule/src/wireguard/device.cpp:167-188 | over any run, valid keypairs have different non-zero indices, the registry names exactly them, and a lookup leads to the keypair |
| `KeySlots.ResponderKeypairConfirmed` | wg-sysmodule/src/wireguard/data.cpp:163-195 | over any run, a responder's keypair is current only after a packet authenticated under it |
| `KeySlots.PendingResponseKeptIff` | wg-sysmodule/src/wireguard/handshake.cpp:893-967 | over any run, the response a device waits for stays acceptable exactly until an initiation is made or received, it arrives, keys are cleared, or a packet promotes the next keypair |
| `KeySlots.AllocateSucceeds` | wg-sysmodule/src/wireguard/device.cpp:109-122 | index allocation never fails |
| `KeySlots.StepOk` | wg-sysmodule/src/wireguard/handshake.cpp:1029-1092 | every handshake, session, transport and clearing step keeps the keypair indices apart and the registry in step with the slots |
| `KeySlots.WgDevice.AllocateIndex` | wg-sysmodule/src/wireguard/device.cpp:109-122 | the first unregistered candidate within 32 |
| `KeySlots.WgDevice.RefreshKeypairIndices` | wg-sysmodule/src/wireguard/device.cpp:167-188 | the registry re-read from the slots, handshake entry cleared |
| `KeySlots.WgDevice.PromoteNextKeypair` | wg-sysmodule/src/wireguard/device.cpp:153-165 | current becomes previous, next becomes current |
| `KeySlots.WgDevice.CreateHandshakeInitiation` | wg-sysmodule/src/wireguard/device.cpp:136-151 | a fresh index for the handshake, in the registry too |
| `KeySlots.WgDevice.BeginHandshakeSession` | wg-sysmodule/src/wireguard/handshake.cpp:1029-1092 | places the new keypair by role and clears the handshake |
| `KeySlots.WgDevice.ConsumeTransportPacket` | wg-sysmodule/src/wireguard/data.cpp:163-195 | promotes exactly on a packet accepted under the next keypair |
| `ReplayWindow.AcceptsExactlyFresh` | wg-sysmodule/src/wireguard/session.cpp:286-309 | after any run, a counter is accepted exactly when it is new and at most 8128 behind the highest |
| `ReplayWindow.AdvanceRefines` | wg-sysmodule/src/wireguard/session.cpp:286-309 | one step of the ring agrees with the set of accepted counters |
| `ReplayWindow.HighestAccepted` | wg-sysmodule/src/wireguard/session.cpp:286-309 | the highest counter of a run is one that was accepted |
| `ReplayWindow.Replay.Advance` | wg-sysmodule/src/wireguard/session.cpp:286-309 | the ring with its clearing loop as specified |
| `AutoStart.ConvergesToNewest` | wg-sysmodule/src/runtime/daemon_runtime.cpp:611-651 | for any interleaving of fewer than 2^32 requests with successful stores, once all returned, name and index are the newest request's if its name leaves room for the terminator; from an index whose name fits, exactly then |
| `AutoStart.FullNameNeverStored` | wg-sysmodule/src/runtime/daemon_runtime.cpp:251-277 | a name that fills its 32-character field is captured, never stored and never published |
| `AutoStart.StepOk` | wg-sysmodule/src/runtime/daemon_runtime.cpp:611-651 | every lock scope of every call keeps the protocol invariant |
| `AutoStart.CurrentIff` | wg-sysmodule/src/runtime/daemon_runtime.cpp:268-277 | a captured request passes the check exactly when it is the newest and its name fits |
| `AutoStart.AutoStartPersistenceState.Begin` | wg-sysmodule/src/runtime/autostart_persistence.hpp:22-33 | the new request is the current one, its name cut to 31 characters |
| `OutboundOrder.AcceptedInOrder` | mitm-sysmodule/src/tunnel_flow_worker.cpp:697-798 | over any run, what replies accepted on a socket is a prefix of what was queued on it; the rest waits or was discarded; while open the service took nothing else |
| `OutboundOrder.SendsConserved` | mitm-sysmodule/src/tunnel_flow_worker.cpp:224-252 | over any run, queued sends are accepted, discarded or held, per socket and in total |
| `OutboundOrder.SlotsDisjoint` | mitm-sysmodule/src/tunnel_flow_worker.cpp:207-237 | over any run, an occupied slot is in exactly one socket's list at one place, a free one in none |
| `OutboundOrder.ServedExactly` | mitm-sysmodule/src/tunnel_flow_worker.cpp:747-791 | over any run, the service took exactly the accepted prefix, unless a reply closed the flow; then also those of the dropped datagrams that reply calls successes, and the first dropped one was refused |
| `OutboundOrder.ReplyClosesIff` | mitm-sysmodule/src/tunnel_flow_worker.cpp:728-791 | a batch closes an open flow exactly when the call fails, some disposition is neither success nor queue-full, or a success follows a queue-full |
| `OutboundPool.TerminalIffDisordered` | mitm-sysmodule/src/tunnel_flow_worker.cpp:747-776 | what the loop over dispositions takes for terminal is exactly a foreign status or a success behind a queue-full |
| `OutboundPool.JudgeMeaning` | mitm-sysmodule/src/tunnel_flow_worker.cpp:747-776 | accepted entries are the leading successes, and anything but queue-full behind them is terminal |
| `OutboundPool.QueueOk` | mitm-sysmodule/src/tunnel_flow_worker.cpp:224-237 | queueing keeps lists disjoint, counts right and the metrics balanced |
| `OutboundPool.RetireOk` | mitm-sysmodule/src/tunnel_flow_worker.cpp:239-252 | retiring a prefix keeps lists, counts and metrics right |
| `OutboundPool.SubmitOk` | mitm-sysmodule/src/tunnel_flow_worker.cpp:697-798 | acting on any reply keeps lists, counts and metrics right |
| `OutboundPool.ResetOk` | mitm-sysmodule/src/tunnel_flow_worker.cpp:145-152 | resetting a flow keeps lists, counts and metrics right |
| `OutboundWorker.JudgeBatch` | mitm-sysmodule/src/tunnel_flow_worker.cpp:747-776 | the loop over dispositions finds the leading successes and the terminal case |
| `OutboundWorker.OutboundState.QueueOutbound` | mitm-sysmodule/src/tunnel_flow_worker.cpp:224-237 | takes the first free slot and appends it, or refuses, as specified |
| `OutboundWorker.OutboundState.RetireQueuedOutboundPrefix` | mitm-sysmodule/src/tunnel_flow_worker.cpp:239-252 | frees the first slots and shifts the list, as specified |
| `OutboundWorker.OutboundState.CloseAndDiscard` | mitm-sysmodule/src/tunnel_flow_worker.cpp:137-143 | closes the flow and frees all it queued |
| `OutboundWorker.OutboundState.ResetFlow` | mitm-sysmodule/src/tunnel_flow_worker.cpp:145-152 | frees all a socket queued and its entry |
| `OutboundWorker.OutboundState.SubmitBatch` | mitm-sysmodule/src/tunnel_flow_worker.cpp:701-791 | one socket's submission as specified; without progress nothing is left to submit on it |
| `OutboundWorker.OutboundState.SubmitQueuedDatagrams` | mitm-sysmodule/src/tunnel_flow_worker.cpp:697-798 | terminates, and then no socket has anything left to submit |
| `WorkerOperations.SignalledExactlyOnce` | mitm-sysmodule/src/tunnel_flow_worker.cpp:585-637 | for any interleaving, an admitted operation is held exactly once until it is signalled once, and never referenced afterwards |
| `WorkerOperations.NoneLeftAfterStop` | mitm-sysmodule/src/tunnel_flow_worker.cpp:587-607 | once the worker has stopped, every admitted operation was signalled and none remains |
| `WorkerOperations.NothingAdmittedAfterStop` | mitm-sysmodule/src/tunnel_flow_worker.cpp:498-518 | after a stop request nothing is admitted |
| `WorkerOperations.NoLostWakeup` | mitm-sysmodule/src/tunnel_flow_worker.cpp:671-695 | the worker never waits unsignalled while any announced operation, any announced control request or a stop is pending |
| `WorkerOperations.OperationTables.Admit` | mitm-sysmodule/src/tunnel_flow_worker.cpp:505-511 | appends unless four are queued |
| `WorkerOperations.OperationTables.Pop` | mitm-sysmodule/src/tunnel_flow_worker.cpp:621-629 | takes the oldest and shifts the others up |
| `WorkerOperations.OperationTables.Park` | mitm-sysmodule/src/tunnel_flow_worker.cpp:800-806 | appends a poll unless four are parked |
| `WorkerOperations.OperationTables.CompletePending` | mitm-sysmodule/src/tunnel_flow_worker.cpp:808-840 | completes the ready polls and keeps the others in order |

## Left out

- Cryptographic primitives, transcript mixing and MAC computation: their outcomes are flags of the actions.
- Horizon IPC, threads, sockets, events and the file system: calls into them are actions or parameters; a failed call is one of the outcomes.
- The lwIP adapter between the plane and the wire: whether it takes a datagram is a parameter of a send.
- The peer runtime and its effect batches: only the step that reports freed capacity is kept.
- Read-only queries of the plane: they copy its limits, a flow's state, the routes, or the live handles into the caller's buffers.
- Statistics counters and log lines, except the send counters of the conservation law.
- The worker's inbound slots, which are first-free and first-occupied and promise no order.
- Discovery, rebinding, timers and name tables of both modules: small finite machines.
- Reading interface address text with the C library: the outcome is a parameter of the probe.
- Overflow of 64-bit nanosecond clocks and of 64-bit send counters: the model's integers do not wrap there.
- FlowPlaneWholeRuns.TupleQuarantined: needs a clock that does not go back; the other results about whole runs do not.
