/** The ICMP debug probe: built byte by byte, checksummed, and recognised again in its echo. */
module DebugProbe {
  import opened TunnelProtocol
  import opened Checksum
  import opened InnerPacket

  const IPV4_HEADER: nat := 20
  const ICMP_HEADER: nat := 8
  const ICMP_PAYLOAD: nat := 16
  const PACKET: nat := IPV4_HEADER + ICMP_HEADER + ICMP_PAYLOAD

  datatype ProbeAction = NoAction | PingTunnelPeer | PingPublicDns

  function ActionCode(action: ProbeAction): U32 {
    match action
    case NoAction => 0
    case PingTunnelPeer => 1
    case PingPublicDns => 2
  }

  /** The action a code stands for; unsupported codes stand for none. */
  function ActionOf(code: U32): ProbeAction {
    if code == 1 then PingTunnelPeer else if code == 2 then PingPublicDns else NoAction
  }

  function TargetOf(action: ProbeAction): Ipv4 {
    match action
    case NoAction => ZERO_IPV4
    case PingTunnelPeer => Ipv4(10, 13, 13, 1)
    case PingPublicDns => Ipv4(1, 1, 1, 1)
  }

  function AddressBytes(a: Ipv4): seq<Byte> {
    [a.b0, a.b1, a.b2, a.b3]
  }

  function Word32(value: U32): (bytes: seq<Byte>)
    ensures |bytes| == 4
  {
    var high24 := value / 256;
    var high16 := high24 / 256;
    [high16 / 256, high16 % 256, high24 % 256, value % 256]
  }

  function Load32(bytes: seq<Byte>, at: nat): U32
    requires at + 3 < |bytes|
  {
    bytes[at] as int * 0x100_0000 + bytes[at + 1] as int * 0x1_0000 + bytes[at + 2] as int * 0x100 + bytes[at + 3] as int
  }

  lemma Word32RoundTrip(value: U32)
    ensures Load32(Word32(value), 0) == value
  {
  }

  /** The IPv4 header with a zero checksum field. */
  function BlankHeader(source: Ipv4, target: Ipv4, identification: U16): (h: seq<Byte>)
    ensures |h| == IPV4_HEADER
  {
    [0x45, 0, 0, 44, identification / 256, identification % 256, 0x40, 0, 64, 1, 0, 0] +
    AddressBytes(source) + AddressBytes(target)
  }

  /** What the probe carries behind its ICMP header. */
  function Signature(action: ProbeAction, generation: U32, peer: U32): (bytes: seq<Byte>)
    ensures |bytes| == ICMP_PAYLOAD
  {
    [87, 71, 78, 88] + Word32(ActionCode(action)) + Word32(generation) + Word32(peer)
  }

  /** The ICMP message with a zero checksum field. */
  function BlankIcmp(kind: Byte, identifier: U16, sequence: U16, signature: seq<Byte>): (m: seq<Byte>)
    requires |signature| == ICMP_PAYLOAD
    ensures |m| == ICMP_HEADER + ICMP_PAYLOAD
  {
    [kind, 0, 0, 0, identifier / 256, identifier % 256, sequence / 256, sequence % 256] + signature
  }

  function Summed(bytes: seq<Byte>, at: nat): (r: seq<Byte>)
    requires at + 1 < |bytes|
    ensures |r| == |bytes|
  {
    WithWord(bytes, at, InternetChecksum(bytes))
  }

  /** The 44 bytes of a probe; the peer index is stored in 32 bits. */
  function EchoRequest(source: Ipv4, action: ProbeAction, generation: U32, peer: nat, seed: U32): (packet: seq<Byte>)
    ensures |packet| == PACKET
  {
    Summed(BlankHeader(source, TargetOf(action), seed % WORD), 10) +
    Summed(BlankIcmp(8, seed / WORD, generation % WORD, Signature(action, generation, peer % SUM_RANGE)), 2)
  }

  // ---------------------------------------------------------------------------------------------
  // Replies

  datatype ReplyValidation =
    | NotDebugReply | InvalidIpv4 | InvalidIcmp | InvalidAction | ActivationMismatch | PeerMismatch
    | DestinationMismatch | SourceMismatch | Valid

  datatype ReplyInfo = ReplyInfo(
    action: ProbeAction, generation: U32, peer: U32, sequence: U16, source: seq<Byte>, destination: seq<Byte>)

  const NO_INFO := ReplyInfo(NoAction, 0, 0, 0, [0, 0, 0, 0], [0, 0, 0, 0])

  /** `local` is the outcome of reading the interface address text. */
  function ValidateReply(payload: seq<Byte>, local: Option<Ipv4>, expectedPeer: nat, expectedGeneration: U32)
    : (ReplyValidation, ReplyInfo)
  {
    if |payload| < IPV4_HEADER + ICMP_HEADER || payload[0] / 16 != 4 then (NotDebugReply, NO_INFO)
    else
      var header := payload[0] % 16 * 4;
      if header < IPV4_HEADER || |payload| < header || InternetChecksum(payload[..header]) != 0 then (InvalidIpv4, NO_INFO)
      else
        var total := Load16(payload, 2);
        if total < header + ICMP_HEADER || total > |payload| then (InvalidIpv4, NO_INFO)
        else if payload[9] != 1 then (NotDebugReply, NO_INFO)
        else ValidateIcmp(payload, payload[header..total], local, expectedPeer, expectedGeneration)
  }

  function ValidateIcmp(
    payload: seq<Byte>, icmp: seq<Byte>, local: Option<Ipv4>, expectedPeer: nat, expectedGeneration: U32)
    : (ReplyValidation, ReplyInfo)
    requires |payload| >= IPV4_HEADER
  {
    if |icmp| < ICMP_HEADER + ICMP_PAYLOAD || InternetChecksum(icmp) != 0 then (InvalidIcmp, NO_INFO)
    else if icmp[0] != 0 || icmp[1] != 0 then (NotDebugReply, NO_INFO)
    else if icmp[8..12] != [87, 71, 78, 88] then (NotDebugReply, NO_INFO)
    else
      var action := ActionOf(Load32(icmp, 12));
      if action == NoAction then (InvalidAction, NO_INFO)
      else if Load32(icmp, 16) != expectedGeneration then (ActivationMismatch, NO_INFO)
      else if Load32(icmp, 20) != expectedPeer then (PeerMismatch, NO_INFO)
      else if local.None? || payload[16..20] != AddressBytes(local.value) then (DestinationMismatch, NO_INFO)
      else if payload[12..16] != AddressBytes(TargetOf(action)) then (SourceMismatch, NO_INFO)
      else (Valid, ReplyInfo(action, Load32(icmp, 16), Load32(icmp, 20), Load16(icmp, 6), payload[12..16], payload[16..20]))
  }

  /**
   * A host's answer to a probe: a well-formed IPv4 packet, with or without options and padding, whose
   * addresses are the probe's exchanged and whose ICMP message is the probe's with the type set to echo
   * reply and its checksum recomputed.
   */
  predicate HonestEcho(request: seq<Byte>, reply: seq<Byte>)
    requires |request| == PACKET
  {
    |reply| >= IPV4_HEADER && reply[0] / 16 == 4 &&
    var header := reply[0] % 16 * 4;
    IPV4_HEADER <= header && header + ICMP_HEADER + ICMP_PAYLOAD <= |reply| && HasValidChecksum(reply[..header]) &&
    Load16(reply, 2) == header + ICMP_HEADER + ICMP_PAYLOAD && reply[9] == 1 &&
    reply[12..16] == request[16..20] && reply[16..20] == request[12..16] &&
    var icmp := reply[header..header + ICMP_HEADER + ICMP_PAYLOAD];
    icmp[0] == 0 && icmp[1] == 0 && HasValidChecksum(icmp) && icmp[4..] == request[IPV4_HEADER + 4..]
  }

  /** The plainest answer: a fresh header and the same message. */
  function EchoReply(request: seq<Byte>, identification: U16): (reply: seq<Byte>)
    requires |request| == PACKET
    ensures |reply| == PACKET
  {
    Summed(BlankHeader(ToAddress(request[16..20]), ToAddress(request[12..16]), identification), 10) +
    Summed([0, 0, 0, 0] + request[IPV4_HEADER + 4..], 2)
  }

  function ToAddress(bytes: seq<Byte>): Ipv4
    requires |bytes| == 4
  {
    Ipv4(bytes[0], bytes[1], bytes[2], bytes[3])
  }

  // ---------------------------------------------------------------------------------------------
  // Results

  lemma SummedValid(bytes: seq<Byte>, at: nat)
    requires at % 2 == 0 && at + 1 < |bytes| && bytes[at] == 0 && bytes[at + 1] == 0
    ensures HasValidChecksum(Summed(bytes, at))
    ensures forall i :: 0 <= i < |bytes| && i != at && i != at + 1 ==> Summed(bytes, at)[i] == bytes[i]
  {
    StoredChecksumValid(bytes, at);
  }

  /** Every built probe is an acceptable inner packet. */
  lemma ProbeIsValidPacket(source: Ipv4, action: ProbeAction, generation: U32, peer: nat, seed: U32)
    ensures ValidateIpv4(EchoRequest(source, action, generation, peer, seed)) == Accepted
  {
    var blank := BlankHeader(source, TargetOf(action), seed % WORD);
    SummedValid(blank, 10);
    var packet := EchoRequest(source, action, generation, peer, seed);
    assert packet[..IPV4_HEADER] == Summed(blank, 10);
    assert packet[0] == blank[0] && packet[2] == blank[2] && packet[3] == blank[3];
  }

  /** The parts of a probe that its echo repeats. */
  lemma ProbeLayout(source: Ipv4, action: ProbeAction, generation: U32, peer: nat, seed: U32)
    ensures var packet := EchoRequest(source, action, generation, peer, seed);
            packet[12..16] == AddressBytes(source) && packet[16..20] == AddressBytes(TargetOf(action)) &&
            Load16(packet, IPV4_HEADER + 6) == generation % WORD &&
            packet[IPV4_HEADER + ICMP_HEADER..] == Signature(action, generation, peer % SUM_RANGE)
  {
    var packet := EchoRequest(source, action, generation, peer, seed);
    var header := BlankHeader(source, TargetOf(action), seed % WORD);
    var icmp := BlankIcmp(8, seed / WORD, generation % WORD, Signature(action, generation, peer % SUM_RANGE));
    SummedValid(header, 10);
    SummedValid(icmp, 2);
    assert forall i :: 12 <= i < 20 ==> packet[i] == header[i];
    assert forall i :: 4 <= i < 24 ==> packet[IPV4_HEADER + i] == icmp[i];
    assert icmp[ICMP_HEADER..] == Signature(action, generation, peer % SUM_RANGE);
  }

  lemma SignatureFields(action: ProbeAction, generation: U32, peer: U32)
    ensures var s := Signature(action, generation, peer);
            s[..4] == [87, 71, 78, 88] && Load32(s, 4) == ActionCode(action) &&
            Load32(s, 8) == generation && Load32(s, 12) == peer
  {
    var s := Signature(action, generation, peer);
    Word32RoundTrip(ActionCode(action));
    Word32RoundTrip(generation);
    Word32RoundTrip(peer);
    assert s[4..8] == Word32(ActionCode(action)) && s[8..12] == Word32(generation) && s[12..16] == Word32(peer);
  }

  /**
   * Every honest echo of a supported probe validates with the probe's own action, generation, peer and
   * sequence, exactly when the peer index fits the 32 bits it is stored in; otherwise the comparison
   * with the full index fails.
   */
  lemma HonestEchoValidates(
    source: Ipv4, action: ProbeAction, generation: U32, peer: nat, seed: U32, reply: seq<Byte>)
    requires action != NoAction && HonestEcho(EchoRequest(source, action, generation, peer, seed), reply)
    ensures ValidateReply(reply, Some(source), peer, generation) ==
            if peer < SUM_RANGE
            then (Valid, ReplyInfo(action, generation, peer, generation % WORD, AddressBytes(TargetOf(action)), AddressBytes(source)))
            else (PeerMismatch, NO_INFO)
  {
    var request := EchoRequest(source, action, generation, peer, seed);
    ProbeLayout(source, action, generation, peer, seed);
    hide EchoRequest, InternetChecksum, HasValidChecksum, Signature, Load32, Load16, AddressBytes, TargetOf, ActionCode;
    var header := reply[0] % 16 * 4;
    var icmp := reply[header..header + ICMP_HEADER + ICMP_PAYLOAD];
    ValidIsZero(reply[..header]);
    ValidIsZero(icmp);
    IcmpFields(request, icmp, action, generation, peer % SUM_RANGE);
    ActionRoundTrip(action);
  }

  lemma ActionRoundTrip(action: ProbeAction)
    ensures action != NoAction ==> ActionOf(ActionCode(action)) == action
  {
  }

  lemma IcmpFields(request: seq<Byte>, icmp: seq<Byte>, action: ProbeAction, generation: U32, peer: U32)
    requires |request| == PACKET && |icmp| == ICMP_HEADER + ICMP_PAYLOAD && icmp[4..] == request[IPV4_HEADER + 4..]
    requires request[IPV4_HEADER + ICMP_HEADER..] == Signature(action, generation, peer)
    ensures icmp[8..12] == [87, 71, 78, 88] && Load32(icmp, 12) == ActionCode(action)
    ensures Load32(icmp, 16) == generation && Load32(icmp, 20) == peer
    ensures Load16(icmp, 6) == Load16(request, IPV4_HEADER + 6)
  {
    SignatureFields(action, generation, peer);
    var s := Signature(action, generation, peer);
    assert forall i :: 4 <= i < 24 ==> icmp[i] == icmp[4..][i - 4] == request[IPV4_HEADER + i];
    assert forall i :: 0 <= i < 16 ==> s[i] == request[IPV4_HEADER + ICMP_HEADER..][i] == icmp[8 + i];
    assert icmp[8..12] == s[..4];
  }

  /** Such an answer exists for every probe. */
  lemma EchoReplyIsHonest(request: seq<Byte>, identification: U16)
    requires |request| == PACKET
    ensures HonestEcho(request, EchoReply(request, identification))
  {
    var reply := EchoReply(request, identification);
    var header := BlankHeader(ToAddress(request[16..20]), ToAddress(request[12..16]), identification);
    var icmp := [0, 0, 0, 0] + request[IPV4_HEADER + 4..];
    SummedValid(header, 10);
    SummedValid(icmp, 2);
    assert reply[..IPV4_HEADER] == Summed(header, 10) && reply[IPV4_HEADER..] == Summed(icmp, 2);
    assert forall i :: 0 <= i < 10 || 12 <= i < 20 ==> reply[i] == header[i];
    assert forall i :: 4 <= i < 24 ==> reply[IPV4_HEADER + i] == icmp[i] == request[IPV4_HEADER + i];
    assert reply[IPV4_HEADER..IPV4_HEADER + ICMP_HEADER + ICMP_PAYLOAD] == reply[IPV4_HEADER..];
  }

  /** Counterexample: at peer index 2^32 an honest echo is taken for another peer's. */
  lemma EchoLostAtWidePeer(source: Ipv4, generation: U32, seed: U32, identification: U16)
    ensures var request := EchoRequest(source, PingTunnelPeer, generation, SUM_RANGE, seed);
            |request| == PACKET && HonestEcho(request, EchoReply(request, identification)) &&
            ValidateReply(EchoReply(request, identification), Some(source), SUM_RANGE, generation) == (PeerMismatch, NO_INFO)
  {
    ProbeLayout(source, PingTunnelPeer, generation, SUM_RANGE, seed);
    hide EchoRequest, EchoReply, HonestEcho, ValidateReply;
    var request := EchoRequest(source, PingTunnelPeer, generation, SUM_RANGE, seed);
    EchoReplyIsHonest(request, identification);
    HonestEchoValidates(source, PingTunnelPeer, generation, SUM_RANGE, seed, EchoReply(request, identification));
  }

  // ---------------------------------------------------------------------------------------------
  // Building in place

  method StoreBytes(target: array<Byte>, at: nat, bytes: seq<Byte>)
    requires at + |bytes| <= target.Length
    modifies target
    ensures target[..] == old(target[..])[..at] + bytes + old(target[..])[at + |bytes|..]
  {
    forall i | 0 <= i < |bytes| {
      target[at + i] := bytes[i];
    }
  }

  /** Sums `size` bytes at `from` and stores the checksum `at` bytes into them. */
  method StoreChecksum(target: array<Byte>, from: nat, size: nat, at: nat)
    requires from + size <= target.Length && at + 1 < size
    modifies target
    ensures target[..] == old(target[..])[..from] + Summed(old(target[from..from + size]), at) + old(target[..])[from + size..]
  {
    ghost var part := target[from..from + size];
    var checksum := ComputeInternetChecksum(target[from..from + size]);
    target[from + at], target[from + at + 1] := checksum / 256, checksum % 256;
    assert target[from..from + size] == WithWord(part, at, checksum);
  }

  method BuildDebugIcmpEchoRequest(
    payload: array<Byte>, source: Option<Ipv4>, action: ProbeAction, generation: U32, peer: nat, seed: U32)
    returns (size: nat)
    modifies payload
    ensures size == if payload.Length < PACKET || action == NoAction || source.None? then 0 else PACKET
    ensures size == 0 ==> payload[..] == old(payload[..])
    ensures size != 0 ==> payload[..] == EchoRequest(source.value, action, generation, peer, seed) + old(payload[..])[PACKET..]
  {
    if payload.Length < PACKET || action == NoAction || source.None? {
      return 0;
    }
    hide BlankHeader, BlankIcmp, Signature, Summed;
    var header := BlankHeader(source.value, TargetOf(action), seed % WORD);
    var icmp := BlankIcmp(8, seed / WORD, generation % WORD, Signature(action, generation, peer % SUM_RANGE));
    StoreBytes(payload, 0, header + icmp);
    ghost var blank := payload[..];
    StoreChecksum(payload, 0, IPV4_HEADER, 10);
    ghost var half := payload[..];
    StoreChecksum(payload, IPV4_HEADER, ICMP_HEADER + ICMP_PAYLOAD, 2);
    SummedParts(header, icmp, old(payload[..])[PACKET..], blank, half, payload[..]);
    return PACKET;
  }

  /** Two checksums stored one after the other touch each its own part. */
  lemma SummedParts(header: seq<Byte>, icmp: seq<Byte>, rest: seq<Byte>, blank: seq<Byte>, half: seq<Byte>, whole: seq<Byte>)
    requires |header| == IPV4_HEADER && |icmp| == ICMP_HEADER + ICMP_PAYLOAD
    requires blank == header + icmp + rest
    requires half == blank[..0] + Summed(blank[0..IPV4_HEADER], 10) + blank[IPV4_HEADER..]
    requires whole == half[..IPV4_HEADER] + Summed(half[IPV4_HEADER..PACKET], 2) + half[PACKET..]
    ensures whole == Summed(header, 10) + Summed(icmp, 2) + rest
  {
    hide Summed;
    assert blank[0..IPV4_HEADER] == header && blank[IPV4_HEADER..] == icmp + rest;
    assert half == Summed(header, 10) + icmp + rest;
    assert half[..IPV4_HEADER] == Summed(header, 10) && half[IPV4_HEADER..PACKET] == icmp && half[PACKET..] == rest;
  }
}
