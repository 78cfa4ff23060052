/** The plane's policy parser as it runs: a cursor moved over the text, proved against Routing. */
module PolicyParser {
  import opened TunnelProtocol
  import opened TextScan
  import opened Routing

  predicate DigitAt(text: string, i: nat) {
    i < |text| && IsDigit(text[i])
  }

  /** Reads a run of at least one digit at the cursor; `None` also when the value passes the limit. */
  method ReadNumberAt(text: string, start: nat, limit: nat) returns (number: Option<nat>, cursor: nat)
    requires start <= |text|
    ensures start <= cursor <= |text|
    ensures ReadNumber(text[start..], limit) == if number.None? then None else Some((number.value, text[cursor..]))
  {
    cursor := start;
    if !DigitAt(text, cursor) {
      return None, cursor;
    }
    var value: nat := 0;
    while DigitAt(text, cursor)
      invariant start <= cursor <= |text|
      invariant ReadDigits(text[cursor..], value, limit) == ReadDigits(text[start..], 0, limit)
      decreases |text| - cursor
    {
      assert text[cursor..][1..] == text[cursor + 1..];
      value := value * 10 + DigitValue(text[cursor]);
      if value > limit {
        return None, cursor;
      }
      cursor := cursor + 1;
    }
    return Some(value), cursor;
  }

  /** What the octets read so far and the outcome for the rest of the text come to. */
  function Joined(done: seq<Byte>, rest: Option<(seq<Byte>, string)>): Option<(seq<Byte>, string)> {
    if rest.None? then None else Some((done + rest.value.0, rest.value.1))
  }

  lemma NothingJoined(rest: Option<(seq<Byte>, string)>)
    ensures Joined([], rest) == rest
  {
    if rest.Some? {
      assert [] + rest.value.0 == rest.value.0;
    }
  }

  lemma JoinedStep(done: seq<Byte>, octet: Byte, rest: Option<(seq<Byte>, string)>)
    ensures Joined(done + [octet], rest) == Joined(done, Joined([octet], rest))
  {
    if rest.Some? {
      assert (done + [octet]) + rest.value.0 == done + ([octet] + rest.value.0);
    }
  }

  /** The first of `n` octets, and the others after its separator. */
  lemma OctetStep(text: string, n: nat)
    requires n > 0
    ensures var number := ReadNumber(text, 255);
            ReadOctets(text, n) ==
              if number.None? || number.value.1 == [] || number.value.1[0] != (if n == 1 then '/' else '.') || number.value.0 > 255
              then None
              else Joined([number.value.0], ReadOctets(number.value.1[1..], n - 1))
  {
    hide ReadNumber;
  }

  lemma OctetsEnd(text: string, done: seq<Byte>)
    ensures Joined(done, ReadOctets(text, 0)) == Some((done, text))
  {
    assert done + [] == done;
  }

  method ReadAddress(text: string) returns (address: Option<Ipv4>, cursor: nat)
    ensures cursor <= |text|
    ensures var octets := ReadOctets(text, 4);
            if address.None? then octets.None? else octets.Some? && ToIpv4(octets.value.0) == address.value && octets.value.1 == text[cursor..]
  {
    hide ReadNumber, ReadOctets;
    var bytes: seq<Byte> := [];
    cursor := 0;
    assert text[0..] == text;
    NothingJoined(ReadOctets(text, 4));
    while |bytes| < 4
      invariant |bytes| <= 4 && cursor <= |text|
      invariant ReadOctets(text, 4) == Joined(bytes, ReadOctets(text[cursor..], 4 - |bytes|))
    {
      OctetStep(text[cursor..], 4 - |bytes|);
      var number, next := ReadNumberAt(text, cursor, 255);
      if number.None? || number.value > 255 {
        return None, cursor;
      }
      if next == |text| || text[next] != (if |bytes| < 3 then '.' else '/') {
        return None, cursor;
      }
      assert text[next..][1..] == text[next + 1..];
      JoinedStep(bytes, number.value, ReadOctets(text[next + 1..], 3 - |bytes|));
      bytes := bytes + [number.value];
      cursor := next + 1;
    }
    OctetsEnd(text[cursor..], bytes);
    return Some(ToIpv4(bytes)), cursor;
  }

  method ParseIpv4Cidr(text: string) returns (cidr: Option<Cidr>)
    ensures cidr == ParseCidr(text)
  {
    var address, cursor := ReadAddress(text);
    if address.None? {
      return None;
    }
    var prefix, end := ReadNumberAt(text, cursor, 32);
    if prefix.None? {
      return None;
    }
    ghost var tail := end;
    while end < |text| && IsBlank(text[end])
      invariant tail <= end <= |text|
      invariant forall i :: tail <= i < end ==> IsBlank(text[i])
    {
      end := end + 1;
    }
    if end < |text| {
      assert !AllBlank(text[tail..]) by {
        assert text[tail..][end - tail] == text[end];
      }
      return None;
    }
    return Some(Cidr(address.value, prefix.value));
  }

  /** Reads the comma-separated routes; on rejection the routes read before it remain. */
  method ParseRouteList(text: string) returns (ok: bool, routes: seq<Route>)
    ensures ParsedRoutes(ok, routes) == ParseRoutes(text, [])
    ensures |routes| <= MAXIMUM_POLICY_ROUTES
  {
    hide ParseCidr, MaskAddress, SkipSeparators, ItemLength;
    routes := [];
    var cursor := 0;
    while cursor < |text|
      invariant cursor <= |text| && |routes| <= MAXIMUM_POLICY_ROUTES
      invariant ParseRoutes(text[cursor..], routes) == ParseRoutes(text, [])
      decreases |text| - cursor
    {
      var start := SkipSeparatorsAt(text, cursor);
      var end := ItemEnd(text, start);
      var length := end - start;
      if length == 0 || length >= 32 || |routes| >= MAXIMUM_POLICY_ROUTES {
        return false, routes;
      }
      assert text[start..][..length] == text[start..end] && text[start..][length..] == text[end..];
      var cidr := ParseIpv4Cidr(text[start..end]);
      if cidr.None? {
        return false, routes;
      }
      routes := routes +
        [Route(MaskAddress(cidr.value.address, cidr.value.prefix), cidr.value.prefix, |routes| + 1)];
      cursor := end;
    }
    return true, routes;
  }

  method SkipSeparatorsAt(text: string, from: nat) returns (cursor: nat)
    requires from <= |text|
    ensures from <= cursor <= |text| && text[cursor..] == SkipSeparators(text[from..])
  {
    cursor := from;
    while cursor < |text| && (IsBlank(text[cursor]) || text[cursor] == ',')
      invariant from <= cursor <= |text| && SkipSeparators(text[cursor..]) == SkipSeparators(text[from..])
    {
      assert text[cursor..][1..] == text[cursor + 1..];
      cursor := cursor + 1;
    }
  }

  method ItemEnd(text: string, start: nat) returns (end: nat)
    requires start <= |text|
    ensures start <= end <= |text| && end - start == ItemLength(text[start..])
  {
    end := start;
    while end < |text| && text[end] != ','
      invariant start <= end <= |text|
      invariant ItemLength(text[start..]) == end - start + ItemLength(text[end..])
    {
      assert text[end..][1..] == text[end + 1..];
      end := end + 1;
    }
  }

  method ParseAndNormalizePolicy(input: PolicyInput) returns (policy: Policy)
    ensures policy == ResolvePolicy(input) && policy.count <= MAXIMUM_POLICY_ROUTES
  {
    if !input.selected || input.configuration.None? || input.peer.activation == 0 {
      return Rejected([]);
    }
    var configuration := input.configuration.value;
    var mtu := EffectiveMtu(configuration.mtu);
    if mtu < MINIMUM_INNER_MTU || mtu > MAXIMUM_INNER_MTU {
      return Rejected([]);
    }
    var source := ParseIpv4Cidr(configuration.address);
    if source.None? {
      return Rejected([]);
    }
    var ok, routes := ParseRouteList(configuration.allowedIps);
    if !ok || routes == [] {
      return Rejected(routes);
    }
    return Policy(true, Table(SortRoutes(routes)), |routes|, source.value.address, input.peer,
                  configuration.leakProtection, mtu);
  }
}
