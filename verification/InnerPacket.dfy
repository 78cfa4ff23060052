/** Inner IP packets: the validators, the transport padding, and their round trip. */
module InnerPacket {
  import opened Counting
  import opened TunnelProtocol
  import opened Checksum

  const MINIMUM_IPV4_HEADER: nat := 20
  const IPV6_HEADER: nat := 40
  const MAXIMUM_PADDING: nat := 15
  const PADDING_BLOCK: nat := 16

  datatype ValidationError =
    | Accepted | TooShort | TooLarge | InvalidVersion | InvalidHeaderLength | LengthMismatch
    | InvalidHeaderChecksum | InvalidPadding

  datatype IpVersion = Unknown | Version4 | Version6

  function VersionOf(packet: seq<Byte>): IpVersion
    requires packet != []
  {
    if packet[0] / 16 == 4 then Version4 else if packet[0] / 16 == 6 then Version6 else Unknown
  }

  function ValidateIpv4(packet: seq<Byte>): ValidationError {
    if |packet| < MINIMUM_IPV4_HEADER then TooShort
    else if |packet| > MAXIMUM_INNER_PACKET_BYTES then TooLarge
    else if packet[0] / 16 != 4 then InvalidVersion
    else
      var header := packet[0] % 16 * 4;
      if header < MINIMUM_IPV4_HEADER || header > |packet| then InvalidHeaderLength
      else if Load16(packet, 2) != |packet| then LengthMismatch
      else if !HasValidChecksum(packet[..header]) then InvalidHeaderChecksum
      else Accepted
  }

  function ValidateIpv6(packet: seq<Byte>): ValidationError {
    if |packet| < IPV6_HEADER then TooShort
    else if |packet| > MAXIMUM_INNER_PACKET_BYTES then TooLarge
    else if packet[0] / 16 != 6 then InvalidVersion
    else if IPV6_HEADER + Load16(packet, 4) != |packet| then LengthMismatch
    else Accepted
  }

  /** The outcome, and the version when the packet is accepted. */
  function ValidateIp(packet: seq<Byte>): (ValidationError, IpVersion) {
    if packet == [] then (TooShort, Unknown)
    else
      var version := VersionOf(packet);
      var outcome :=
        match version
        case Version4 => ValidateIpv4(packet)
        case Version6 => ValidateIpv6(packet)
        case Unknown => InvalidVersion;
      (outcome, if outcome == Accepted then version else Unknown)
  }

  predicate AllZero(bytes: seq<Byte>) {
    forall i :: 0 <= i < |bytes| ==> bytes[i] == 0
  }

  function UnpaddedSize(payload: seq<Byte>): nat {
    if payload == [] then 0
    else
      match VersionOf(payload)
      case Version4 => if |payload| >= 4 then Load16(payload, 2) else 0
      case Version6 => if |payload| >= IPV6_HEADER then IPV6_HEADER + Load16(payload, 4) else 0
      case Unknown => 0
  }

  datatype Unpadded = Unpadded(outcome: ValidationError, size: nat, version: IpVersion)

  function Refused(outcome: ValidationError): Unpadded {
    Unpadded(outcome, 0, Unknown)
  }

  function ValidatePadded(payload: seq<Byte>): Unpadded {
    if payload == [] then Refused(TooShort)
    else if VersionOf(payload) == Unknown then Refused(InvalidVersion)
    else if |payload| < (if VersionOf(payload) == Version4 then MINIMUM_IPV4_HEADER else IPV6_HEADER) then Refused(TooShort)
    else
      var size := UnpaddedSize(payload);
      if size == 0 then Refused(LengthMismatch)
      else if size > MAXIMUM_INNER_PACKET_BYTES then Refused(TooLarge)
      else if size > |payload| then Refused(LengthMismatch)
      else if |payload| - size > MAXIMUM_PADDING || !AllZero(payload[size..]) then Refused(InvalidPadding)
      else
        var (outcome, version) := ValidateIp(payload[..size]);
        if outcome != Accepted then Refused(outcome) else Unpadded(Accepted, size, version)
  }

  /** The older validator, for IPv4 payloads only. */
  function ValidatePaddedIpv4(payload: seq<Byte>): (ValidationError, nat) {
    if |payload| < MINIMUM_IPV4_HEADER then (TooShort, 0)
    else
      var size := Load16(payload, 2);
      if size < MINIMUM_IPV4_HEADER then (LengthMismatch, 0)
      else if size > MAXIMUM_INNER_PACKET_BYTES then (TooLarge, 0)
      else if size > |payload| then (LengthMismatch, 0)
      else if |payload| - size > MAXIMUM_PADDING || !AllZero(payload[size..]) then (InvalidPadding, 0)
      else
        var outcome := ValidateIpv4(payload[..size]);
        (outcome, if outcome == Accepted then size else 0)
  }

  // ---------------------------------------------------------------------------------------------
  // Padding

  function BlockCeiling(size: nat): nat {
    (size + PADDING_BLOCK - 1) / PADDING_BLOCK * PADDING_BLOCK
  }

  /** The padded size; the last mtu-sized unit is rounded up to a block but not past the mtu. */
  function PaddedSize(size: nat, mtu: nat): nat {
    if mtu == 0 || size == 0 then (if size == 0 then 0 else BlockCeiling(size))
    else
      var last := if size > mtu then size % mtu else size;
      var padded := BlockCeiling(last);
      size + (if padded > mtu then mtu else padded) - last
  }

  function Padded(payload: seq<Byte>, mtu: nat): seq<Byte>
    requires PaddedSize(|payload|, mtu) >= |payload|
  {
    payload + Repeat(0, PaddedSize(|payload|, mtu) - |payload|)
  }

  lemma BlockCeilingBounds(size: nat)
    ensures size <= BlockCeiling(size) <= size + MAXIMUM_PADDING
  {
  }

  /** Padding adds at most fifteen bytes and never takes a packet that fits past the mtu. */
  lemma PaddedSizeBounds(size: nat, mtu: nat)
    ensures size <= PaddedSize(size, mtu) <= size + MAXIMUM_PADDING
    ensures mtu != 0 && size <= mtu ==> PaddedSize(size, mtu) <= mtu
  {
    BlockCeilingBounds(size);
    if mtu != 0 {
      var last := if size > mtu then size % mtu else size;
      assert last <= mtu;
      BlockCeilingBounds(last);
    }
  }

  /** An accepted packet states its own size. */
  lemma AcceptedSize(packet: seq<Byte>)
    requires ValidateIp(packet).0 == Accepted
    ensures packet != [] && ValidateIp(packet).1 == VersionOf(packet) != Unknown
    ensures |packet| >= (if VersionOf(packet) == Version4 then MINIMUM_IPV4_HEADER else IPV6_HEADER)
    ensures UnpaddedSize(packet) == |packet| <= MAXIMUM_INNER_PACKET_BYTES
  {
  }

  /** Trailing zeros do not change the size a packet states. */
  lemma SizeUnderPadding(packet: seq<Byte>, zeros: seq<Byte>)
    requires |packet| >= MINIMUM_IPV4_HEADER && (VersionOf(packet) == Version6 ==> |packet| >= IPV6_HEADER)
    ensures VersionOf(packet + zeros) == VersionOf(packet) && UnpaddedSize(packet + zeros) == UnpaddedSize(packet)
  {
    var whole := packet + zeros;
    assert forall i :: 0 <= i < |packet| ==> whole[i] == packet[i];
  }

  /** Round trip: the padded validator recovers the size and version of every accepted packet. */
  lemma PaddingRoundTrip(packet: seq<Byte>, mtu: nat)
    requires ValidateIp(packet).0 == Accepted
    ensures PaddedSize(|packet|, mtu) >= |packet|
    ensures ValidatePadded(Padded(packet, mtu)) == Unpadded(Accepted, |packet|, VersionOf(packet))
  {
    PaddedSizeBounds(|packet|, mtu);
    AcceptedSize(packet);
    var zeros := Repeat(0, PaddedSize(|packet|, mtu) - |packet|);
    hide ValidateIp, UnpaddedSize, VersionOf;
    SizeUnderPadding(packet, zeros);
    assert Padded(packet, mtu)[..|packet|] == packet && Padded(packet, mtu)[|packet|..] == zeros;
  }

  /** What the padded validator accepts is an accepted packet followed by at most fifteen zeros. */
  lemma PaddedAcceptsOnly(payload: seq<Byte>)
    requires ValidatePadded(payload).outcome == Accepted
    ensures var r := ValidatePadded(payload);
            r.size <= |payload| <= r.size + MAXIMUM_PADDING && AllZero(payload[r.size..]) &&
            ValidateIp(payload[..r.size]) == (Accepted, r.version)
  {
  }

  /** On IPv4 payloads the two validators accept the same packets with the same size. */
  lemma Ipv4ValidatorsAgree(payload: seq<Byte>)
    requires payload != [] && VersionOf(payload) == Version4
    ensures ValidatePadded(payload).outcome == Accepted <==> ValidatePaddedIpv4(payload).0 == Accepted
    ensures ValidatePadded(payload).size == ValidatePaddedIpv4(payload).1
  {
    var size := UnpaddedSize(payload);
    if MINIMUM_IPV4_HEADER <= |payload| && 0 < size <= |payload| {
      assert payload[..size][0] == payload[0];
    }
  }

  // ---------------------------------------------------------------------------------------------
  // The code that loops

  method HasZeroPadding(payload: seq<Byte>, size: nat) returns (zero: bool)
    requires size <= |payload|
    ensures zero <==> AllZero(payload[size..])
  {
    for i := size to |payload|
      invariant forall j :: size <= j < i ==> payload[j] == 0
    {
      if payload[i] != 0 {
        assert payload[size..][i - size] != 0;
        return false;
      }
    }
    return true;
  }

  method ValidateInnerIpv4Packet(packet: seq<Byte>) returns (outcome: ValidationError)
    ensures outcome == ValidateIpv4(packet)
  {
    if |packet| < MINIMUM_IPV4_HEADER {
      return TooShort;
    }
    if |packet| > MAXIMUM_INNER_PACKET_BYTES {
      return TooLarge;
    }
    if packet[0] / 16 != 4 {
      return InvalidVersion;
    }
    var header := packet[0] % 16 * 4;
    if header < MINIMUM_IPV4_HEADER || header > |packet| {
      return InvalidHeaderLength;
    }
    if Load16(packet, 2) != |packet| {
      return LengthMismatch;
    }
    var valid := HasValidInternetChecksum(packet[..header]);
    return if valid then Accepted else InvalidHeaderChecksum;
  }

  method ValidatePaddedInnerIpPacket(payload: seq<Byte>) returns (r: Unpadded)
    ensures r == ValidatePadded(payload)
  {
    if payload == [] {
      return Refused(TooShort);
    }
    if VersionOf(payload) == Unknown {
      return Refused(InvalidVersion);
    }
    if |payload| < (if VersionOf(payload) == Version4 then MINIMUM_IPV4_HEADER else IPV6_HEADER) {
      return Refused(TooShort);
    }
    var size := UnpaddedSize(payload);
    if size == 0 {
      return Refused(LengthMismatch);
    }
    if size > MAXIMUM_INNER_PACKET_BYTES {
      return Refused(TooLarge);
    }
    if size > |payload| {
      return Refused(LengthMismatch);
    }
    var zero := HasZeroPadding(payload, size);
    if |payload| - size > MAXIMUM_PADDING || !zero {
      return Refused(InvalidPadding);
    }
    var (outcome, version) := ValidateIp(payload[..size]);
    return if outcome != Accepted then Refused(outcome) else Unpadded(Accepted, size, version);
  }

  /** Copies the payload into the output behind the header and zero-fills up to the padded size. */
  method PadAndFill(output: array<Byte>, header: nat, payload: seq<Byte>, mtu: nat) returns (size: nat)
    requires header + PaddedSize(|payload|, mtu) <= output.Length
    modifies output
    ensures PaddedSize(|payload|, mtu) >= |payload| && size == |Padded(payload, mtu)|
    ensures output[header..header + size] == Padded(payload, mtu)
    ensures output[..header] == old(output[..header]) && output[header + size..] == old(output[header + size..])
  {
    PaddedSizeBounds(|payload|, mtu);
    size := PaddedSize(|payload|, mtu);
    forall i | 0 <= i < |payload| {
      output[header + i] := payload[i];
    }
    forall i | |payload| <= i < size {
      output[header + i] := 0;
    }
  }
}
