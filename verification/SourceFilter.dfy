/**
 * The inbound source filter: AllowedIPs text read again, by different code from the plane's policy
 * parser, to decide whether a decrypted packet's source address is allowed.
 */
module SourceFilter {
  import opened TunnelProtocol
  import opened TextScan
  import opened Ipv6Text
  import opened Routing
  import opened InnerPacket

  function ParseDigits(text: string, value: nat, limit: nat): (r: Option<nat>)
    requires value <= limit
    ensures r.Some? ==> r.value <= limit
    decreases |text|
  {
    if text == [] then Some(value)
    else if !IsDigit(text[0]) then None
    else
      var next := value * 10 + DigitValue(text[0]);
      if next > limit then None else ParseDigits(text[1..], next, limit)
  }

  function ParseDecimal(text: string, limit: nat): (r: Option<nat>)
    ensures r.Some? ==> r.value <= limit
  {
    if text == [] then None else ParseDigits(text, 0, limit)
  }

  /** `n` octets separated by dots, with nothing behind them. */
  function ParseOctets(text: string, n: nat): (r: Option<seq<Byte>>)
    requires n > 0
    ensures r.Some? ==> |r.value| == n
    decreases n
  {
    var delimiter := FindChar(text, '.', 0);
    var octet := ParseDecimal(text[..delimiter], 255);
    if octet.None? then None
    else if n == 1 then (if delimiter == |text| then Some([octet.value]) else None)
    else if delimiter == |text| then None
    else
      var rest := ParseOctets(text[delimiter + 1..], n - 1);
      if rest.None? then None else Some([octet.value] + rest.value)
  }

  datatype AllowedIp = AllowedIp(address: seq<Byte>, prefix: nat)

  function ParseAllowedIp(text: string): (r: Option<AllowedIp>)
    ensures r.Some? ==> |r.value.address| in {4, 16} && r.value.prefix <= 8 * |r.value.address|
  {
    var slash := FindLastChar(text, '/', |text|);
    if slash.None? || slash.value == 0 || slash.value + 1 == |text| then None
    else
      var address := Trim(text[..slash.value]);
      var ipv6 := ':' in address;
      var prefix := ParseDecimal(Trim(text[slash.value + 1..]), if ipv6 then 128 else 32);
      if prefix.None? then None
      else
        var bytes := if ipv6 then ParseIpv6(address) else ParseOctets(address, 4);
        if bytes.None? then None else Some(AllowedIp(bytes.value, prefix.value))
  }

  predicate PrefixMatches(allowed: AllowedIp, source: seq<Byte>) {
    |allowed.address| == |source| && allowed.prefix <= 8 * |source| &&
    var full := allowed.prefix / 8;
    var remaining := allowed.prefix % 8;
    allowed.address[..full] == source[..full] &&
    (remaining == 0 || Masked(allowed.address[full], remaining) == Masked(source[full], remaining))
  }

  /** Whether an item of the comma-separated text allows the source. */
  predicate ItemAllows(item: string, source: seq<Byte>) {
    var allowed := ParseAllowedIp(Trim(item));
    allowed.Some? && PrefixMatches(allowed.value, source)
  }

  predicate SourceAllowed(text: string, source: seq<Byte>)
    decreases |text|
  {
    text != [] &&
    var length := ItemLength(text);
    (ItemAllows(text[..length], source) || (length < |text| && SourceAllowed(text[length + 1..], source)))
  }

  /** The source address of an accepted packet. */
  function SourceOf(packet: seq<Byte>): seq<Byte>
    requires ValidateIp(packet).0 == Accepted
  {
    AcceptedSize(packet);
    if VersionOf(packet) == Version4 then packet[12..16] else packet[8..24]
  }

  predicate PacketAllowed(packet: seq<Byte>, text: string) {
    ValidateIp(packet).0 == Accepted && SourceAllowed(text, SourceOf(packet))
  }

  // ---------------------------------------------------------------------------------------------
  // The code that loops

  method ParseDecimalText(text: string, limit: nat) returns (number: Option<nat>)
    ensures number == ParseDecimal(text, limit)
  {
    if text == [] {
      return None;
    }
    var parsed: nat := 0;
    for i := 0 to |text|
      invariant parsed <= limit && ParseDigits(text[i..], parsed, limit) == ParseDigits(text, 0, limit)
    {
      assert text[i..][1..] == text[i + 1..];
      if !IsDigit(text[i]) {
        return None;
      }
      var next := parsed * 10 + DigitValue(text[i]);
      if next > limit {
        return None;
      }
      parsed := next;
    }
    return Some(parsed);
  }

  /** Parsed bytes behind those that came before them. */
  function After(bytes: seq<Byte>, rest: Option<seq<Byte>>): Option<seq<Byte>> {
    if rest.None? then None else Some(bytes + rest.value)
  }

  lemma NothingBefore(rest: Option<seq<Byte>>)
    ensures After([], rest) == rest
  {
    if rest.Some? {
      assert [] + rest.value == rest.value;
    }
  }

  lemma AfterStep(bytes: seq<Byte>, octet: Byte, rest: Option<seq<Byte>>)
    ensures After(bytes + [octet], rest) == After(bytes, After([octet], rest))
  {
    if rest.Some? {
      assert (bytes + [octet]) + rest.value == bytes + ([octet] + rest.value);
    }
  }

  /** The octet before the first dot, and the others behind it. */
  lemma OctetStep(text: string, n: nat)
    requires n > 0
    ensures var delimiter := FindChar(text, '.', 0);
            var octet := ParseDecimal(text[..delimiter], 255);
            ParseOctets(text, n) ==
              if octet.None? || (n == 1) != (delimiter == |text|) then None
              else if n == 1 then Some([octet.value])
              else After([octet.value], ParseOctets(text[delimiter + 1..], n - 1))
  {
    hide FindChar, ParseDecimal;
  }

  method ParseIpv4Address(text: string) returns (address: Option<seq<Byte>>)
    ensures address == ParseOctets(text, 4)
  {
    hide ParseOctets, ParseDecimal, FindChar;
    var bytes: seq<Byte> := [];
    var rest := text;
    NothingBefore(ParseOctets(text, 4));
    while |bytes| < 3
      invariant |bytes| <= 3
      invariant ParseOctets(text, 4) == After(bytes, ParseOctets(rest, 4 - |bytes|))
    {
      OctetStep(rest, 4 - |bytes|);
      var delimiter := FindChar(rest, '.', 0);
      var octet := ParseDecimalText(rest[..delimiter], 255);
      if octet.None? || delimiter == |rest| {
        return None;
      }
      AfterStep(bytes, octet.value, ParseOctets(rest[delimiter + 1..], 3 - |bytes|));
      bytes := bytes + [octet.value];
      rest := rest[delimiter + 1..];
    }
    OctetStep(rest, 1);
    var delimiter := FindChar(rest, '.', 0);
    var octet := ParseDecimalText(rest[..delimiter], 255);
    return if octet.Some? && delimiter == |rest| then Some(bytes + [octet.value]) else None;
  }

  method AllowedIpsContainSource(packet: seq<Byte>, text: string) returns (allowed: bool)
    ensures allowed <==> PacketAllowed(packet, text)
  {
    if ValidateIp(packet).0 != Accepted {
      return false;
    }
    var source := SourceOf(packet);
    var rest := text;
    while rest != []
      invariant SourceAllowed(rest, source) <==> SourceAllowed(text, source)
      decreases |rest|
    {
      var delimiter := ItemLength(rest);
      if ItemAllows(rest[..delimiter], source) {
        return true;
      }
      if delimiter == |rest| {
        return false;
      }
      rest := rest[delimiter + 1..];
    }
    return false;
  }
}
