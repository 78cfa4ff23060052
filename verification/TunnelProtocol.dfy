/** The wire-level vocabulary shared by the flow plane and the worker: limits, statuses and records. */
module TunnelProtocol {

  const MAXIMUM_CLIENT_CONTEXTS: nat := 4
  const MAXIMUM_FLOWS_PER_CLIENT: nat := 4
  const MAXIMUM_FLOWS: nat := 16
  const MAXIMUM_INNER_PACKET_BYTES: nat := 1500
  const MAXIMUM_UDP_PAYLOAD_BYTES: nat := 1472
  const INBOUND_SLAB_COUNT: nat := 16
  const MAXIMUM_INBOUND_PER_FLOW: nat := 4
  const COMPLETION_QUEUE_CAPACITY: nat := 16
  /** Entries the ring always leaves for control completions: one policy change and two per flow. */
  const DATA_COMPLETION_CAPACITY: nat := COMPLETION_QUEUE_CAPACITY - (1 + 2 * MAXIMUM_FLOWS_PER_CLIENT)
  const MAXIMUM_POLICY_ROUTES: nat := 16
  const TOMBSTONE_CAPACITY: nat := 16
  const DEFAULT_INNER_MTU: nat := 1420
  const MINIMUM_INNER_MTU: nat := 576
  const MAXIMUM_INNER_MTU: nat := 1500

  type Byte = x: int | 0 <= x < 0x100
  type U16 = x: int | 0 <= x < 0x1_0000
  type U32 = x: int | 0 <= x < 0x1_0000_0000

  datatype Option<+T> = None | Some(value: T)

  datatype ProtocolStatus =
    | Success | MalformedInput | UnsupportedOperation | IncompatibleApiVersion | RouteNotCovered
    | PeerUnavailable | TransportUnavailable | FlowQuotaExhausted | DatagramTooLarge | QueueFull
    | StaleHandle | FlowClosed | QueueEmpty | OutputBufferTooSmall | ReverseTupleExhausted
    | TunnelBlockedByPolicy

  datatype FlowState = Open | Suspended | Closing | Closed

  datatype TerminalReason =
    | NoReason | ClientClosed | PeerDeactivated | PeerActivationChanged | PolicyInvalidated | SysmoduleShutdown

  datatype CompletionType = InboundDatagram | FlowStateChanged | PolicyChanged | Writable

  datatype Ipv4 = Ipv4(b0: Byte, b1: Byte, b2: Byte, b3: Byte)

  datatype Endpoint = Endpoint(address: Ipv4, port: U16, reserved: U16)

  const ZERO_IPV4 := Ipv4(0, 0, 0, 0)
  const ZERO_ENDPOINT := Endpoint(ZERO_IPV4, 0, 0)

  /** Endpoint comparison ignores the reserved half-word. */
  predicate SameEndpoint(a: Endpoint, b: Endpoint) {
    a.port == b.port && a.address == b.address
  }

  datatype PeerIdentity = PeerIdentity(index: U32, activation: U32)

  const NO_PEER := PeerIdentity(0, 0)

  datatype CompletionRecord = CompletionRecord(
    kind: CompletionType,
    status: ProtocolStatus,
    flow: nat,
    remote: Endpoint,
    payloadOffset: nat,
    payloadSize: nat,
    activation: U32,
    policyGeneration: U32,
    flowState: FlowState,
    reason: TerminalReason)

  /** What a zero-initialised record holds, apart from its kind, status and flow. */
  function BlankRecord(kind: CompletionType, status: ProtocolStatus, flow: nat): CompletionRecord {
    CompletionRecord(kind, status, flow, ZERO_ENDPOINT, 0, 0, 0, 0, Open, NoReason)
  }

  /** The next value of a wrapping 32-bit counter that skips zero. */
  function NextNonZero(value: U32): U32 {
    if value == 0xFFFF_FFFF then 1 else value + 1
  }
}
