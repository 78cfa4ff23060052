/**
 * The two readings of an AllowedIPs text agree: for every text the plane accepts, an address is covered
 * by a normalised route exactly when the inbound filter allows it as a source, and route selection
 * returns the longest covering prefix.
 */
module RoutingAgreement {
  import opened Division
  import opened TunnelProtocol
  import opened TextScan
  import opened Routing
  import opened SourceFilter
  import opened InnerPacket

  function AddressBytes(a: Ipv4): seq<Byte> {
    [a.b0, a.b1, a.b2, a.b3]
  }

  // ---------------------------------------------------------------------------------------------
  // Numbers

  predicate AllDigits(text: string) {
    forall i :: 0 <= i < |text| ==> IsDigit(text[i])
  }

  /** A number read off the front of a text is what the filter reads from those digits alone. */
  lemma {:induction false} DigitsAgree(text: string, value: nat, limit: nat)
    returns (digits: string)
    requires value <= limit && ReadDigits(text, value, limit).Some?
    ensures text == digits + ReadDigits(text, value, limit).value.1 && AllDigits(digits)
    ensures ParseDigits(digits, value, limit) == Some(ReadDigits(text, value, limit).value.0)
    ensures text != [] && IsDigit(text[0]) ==> digits != []
  {
    hide IsDigit;
    if text == [] || !IsDigit(text[0]) {
      digits := [];
    } else {
      var next := value * 10 + DigitValue(text[0]);
      var rest := DigitsAgree(text[1..], next, limit);
      digits := [text[0]] + rest;
      assert digits[1..] == rest;
      assert text == [text[0]] + text[1..];
    }
  }

  lemma NumberAgrees(text: string, limit: nat) returns (digits: string)
    requires ReadNumber(text, limit).Some?
    ensures digits != [] && AllDigits(digits) && text == digits + ReadNumber(text, limit).value.1
    ensures ParseDecimal(digits, limit) == Some(ReadNumber(text, limit).value.0)
  {
    digits := DigitsAgree(text, 0, limit);
  }

  // ---------------------------------------------------------------------------------------------
  // Addresses

  /** Only digits and dots, starting and ending with a digit. */
  predicate Dotted(text: string) {
    text != [] && IsDigit(text[0]) && IsDigit(text[|text| - 1]) &&
    forall i :: 0 <= i < |text| ==> IsDigit(text[i]) || text[i] == '.'
  }

  /** One octet read with its separator. */
  lemma OctetAgrees(text: string, separator: char) returns (digits: string)
    requires ReadOctet(text, separator).Some? && separator in {'.', '/'}
    ensures digits != [] && AllDigits(digits) && text == digits + [separator] + ReadOctet(text, separator).value.1
    ensures ParseDecimal(digits, 255) == Some(ReadOctet(text, separator).value.0)
  {
    digits := NumberAgrees(text, 255);
  }

  lemma {:induction false} OctetsAgree(text: string, n: nat) returns (dotted: string)
    requires n > 0 && ReadOctets(text, n).Some?
    ensures Dotted(dotted) && text == dotted + "/" + ReadOctets(text, n).value.1
    ensures ParseOctets(dotted, n) == Some(ReadOctets(text, n).value.0)
    decreases n
  {
    hide ReadOctet, ParseDecimal, FindChar, ParseOctets, Dotted, ReadOctets;
    ReadFirst(text, n);
    var octet := ReadOctet(text, if n == 1 then '/' else '.').value;
    var digits := OctetAgrees(text, if n == 1 then '/' else '.');
    if n == 1 {
      dotted := digits;
      DigitsDotted(digits);
      LastOctet(digits, octet.0);
    } else {
      var rest := OctetsAgree(octet.1, n - 1);
      dotted := digits + "." + rest;
      MoreOctets(digits, octet.0, rest, n);
      MoreDotted(digits, rest);
      assert text == digits + "." + (rest + "/" + ReadOctets(octet.1, n - 1).value.1);
    }
  }

  /** The first octet read, and what is read behind it. */
  lemma ReadFirst(text: string, n: nat)
    requires n > 0 && ReadOctets(text, n).Some?
    ensures var octet := ReadOctet(text, if n == 1 then '/' else '.');
            octet.Some? &&
            if n == 1 then ReadOctets(text, n).value == ([octet.value.0], octet.value.1)
            else var rest := ReadOctets(octet.value.1, n - 1);
                 rest.Some? && ReadOctets(text, n).value == ([octet.value.0] + rest.value.0, rest.value.1)
  {
    hide ReadOctet;
    if n == 1 {
      var octet := ReadOctet(text, '/').value;
      assert [octet.0] + [] == [octet.0];
    }
  }

  lemma DigitsDotted(digits: string)
    requires digits != [] && AllDigits(digits)
    ensures Dotted(digits)
  {
  }

  lemma MoreDotted(digits: string, rest: string)
    requires digits != [] && AllDigits(digits) && Dotted(rest)
    ensures Dotted(digits + "." + rest)
  {
    var dotted := digits + "." + rest;
    assert dotted[|dotted| - 1] == rest[|rest| - 1];
  }

  lemma LastOctet(digits: string, octet: Byte)
    requires AllDigits(digits) && ParseDecimal(digits, 255) == Some(octet)
    ensures ParseOctets(digits, 1) == Some([octet])
  {
    hide FindChar;
    FindCharIn(digits, '.', []);
    assert digits[..|digits|] == digits;
  }

  lemma MoreOctets(digits: string, octet: Byte, rest: string, n: nat)
    requires AllDigits(digits) && ParseDecimal(digits, 255) == Some(octet) && n > 1 && ParseOctets(rest, n - 1).Some?
    ensures ParseOctets(digits + "." + rest, n) == Some([octet] + ParseOctets(rest, n - 1).value)
  {
    hide FindChar;
    var dotted := digits + "." + rest;
    FindCharIn(digits, '.', rest);
    assert dotted[..|digits|] == digits && dotted[|digits| + 1..] == rest;
  }

  /** The filter reads an accepted route item, trimmed, as the same address and prefix. */
  lemma ItemAgrees(item: string)
    requires ParseCidr(item).Some?
    ensures var cidr := ParseCidr(item).value;
            ParseAllowedIp(Trim(item)) == Some(AllowedIp(AddressBytes(cidr.address), cidr.prefix))
  {
    hide ReadNumber, ReadOctets, ParseOctets, ParseDecimal, ParseAllowedIp, Trim;
    var octets := ReadOctets(item, 4).value;
    var dotted := OctetsAgree(item, 4);
    var digits := NumberAgrees(octets.1, 32);
    var blanks := ReadNumber(octets.1, 32).value.1;
    var text := dotted + "/" + digits;
    assert item == text + blanks;
    assert text[0] == dotted[0] && text[|text| - 1] == digits[|digits| - 1];
    TrimmedText(text, blanks);
    FilterReads(dotted, digits);
    assert AddressBytes(ToIpv4(octets.0)) == octets.0;
  }

  lemma FilterReads(dotted: string, digits: string)
    requires Dotted(dotted) && digits != [] && AllDigits(digits)
    requires ParseOctets(dotted, 4).Some? && ParseDecimal(digits, 32).Some?
    ensures ParseAllowedIp(dotted + "/" + digits) == Some(AllowedIp(ParseOctets(dotted, 4).value, ParseDecimal(digits, 32).value))
  {
    hide ParseOctets, ParseDecimal, Trim, FindLastChar;
    var text := dotted + "/" + digits;
    TrimmedText(dotted, []);
    TrimmedText(digits, []);
    assert '/' !in digits && ':' !in dotted;
    FindLastCharIn(dotted, '/', digits);
    assert text[..|dotted|] == dotted && text[|dotted| + 1..] == digits;
  }

  // ---------------------------------------------------------------------------------------------
  // Matching

  lemma MaskTwice(value: Byte, bits: nat)
    requires bits <= 8
    ensures Masked(Masked(value, bits), bits) == Masked(value, bits)
  {
    MaskedTwice(value, 128);
    MaskedTwice(value, 64);
    MaskedTwice(value, 32);
    MaskedTwice(value, 16);
    MaskedTwice(value, 8);
    MaskedTwice(value, 4);
    MaskedTwice(value, 2);
  }

  lemma MaskedTwice(value: nat, n: nat)
    requires n > 0
    ensures value / n * n / n == value / n
  {
    Packed(value / n, 0, n);
  }

  lemma MaskEnds(value: Byte)
    ensures Masked(value, 8) == value && Masked(value, 0) == 0
  {
  }

  /** How the two matchers see one byte. */
  predicate SameByte(a: Byte, s: Byte, prefix: nat, index: nat) {
    Masked(a, CoveredBits(prefix, index)) == Masked(s, CoveredBits(prefix, index))
  }

  lemma SameByteCases(a: Byte, s: Byte, prefix: nat, index: nat)
    ensures index < prefix / 8 ==> (SameByte(a, s, prefix, index) <==> a == s)
    ensures index > prefix / 8 ==> SameByte(a, s, prefix, index)
    ensures index == prefix / 8 && prefix % 8 == 0 ==> SameByte(a, s, prefix, index)
    ensures index == prefix / 8 ==> (SameByte(a, s, prefix, index) <==> Masked(a, prefix % 8) == Masked(s, prefix % 8))
  {
    hide Masked;
    MaskEnds(a);
    MaskEnds(s);
  }

  /** A normalised route matches byte by byte. */
  lemma RouteMatchesBytes(address: Ipv4, prefix: nat, identifier: nat, source: Ipv4)
    ensures RouteMatches(Route(MaskAddress(address, prefix), prefix, identifier), source) <==>
            SameByte(address.b0, source.b0, prefix, 0) && SameByte(address.b1, source.b1, prefix, 1) &&
            SameByte(address.b2, source.b2, prefix, 2) && SameByte(address.b3, source.b3, prefix, 3)
  {
    hide Masked, CoveredBits;
    MaskTwice(address.b0, CoveredBits(prefix, 0));
    MaskTwice(address.b1, CoveredBits(prefix, 1));
    MaskTwice(address.b2, CoveredBits(prefix, 2));
    MaskTwice(address.b3, CoveredBits(prefix, 3));
  }

  /** A normalised route matches an address exactly when the filter's prefix does. */
  lemma MatchAgrees(address: Ipv4, prefix: nat, identifier: nat, source: Ipv4)
    requires prefix <= 32
    ensures RouteMatches(Route(MaskAddress(address, prefix), prefix, identifier), source) <==>
            PrefixMatches(AllowedIp(AddressBytes(address), prefix), AddressBytes(source))
  {
    hide Masked, CoveredBits, RouteMatches, SameByte, MaskAddress;
    RouteMatchesBytes(address, prefix, identifier, source);
    SameByteCases(address.b0, source.b0, prefix, 0);
    SameByteCases(address.b1, source.b1, prefix, 1);
    SameByteCases(address.b2, source.b2, prefix, 2);
    SameByteCases(address.b3, source.b3, prefix, 3);
    var a, s := AddressBytes(address), AddressBytes(source);
    PrefixMatchesBytes(a, prefix, s);
    var full := prefix / 8;
    assert a[0] == address.b0 && a[1] == address.b1 && a[2] == address.b2 && a[3] == address.b3;
    assert s[0] == source.b0 && s[1] == source.b1 && s[2] == source.b2 && s[3] == source.b3;
    if full == 0 { } else if full == 1 { } else if full == 2 { } else if full == 3 { }
  }

  lemma PrefixMatchesBytes(a: seq<Byte>, prefix: nat, s: seq<Byte>)
    requires |a| == 4 && |s| == 4 && prefix <= 32
    ensures PrefixMatches(AllowedIp(a, prefix), s) <==>
            (forall i :: 0 <= i < prefix / 8 ==> a[i] == s[i]) &&
            (prefix % 8 == 0 || Masked(a[prefix / 8], prefix % 8) == Masked(s[prefix / 8], prefix % 8))
  {
    hide Masked;
    var full := prefix / 8;
    if a[..full] == s[..full] {
      assert forall i :: 0 <= i < full ==> a[i] == a[..full][i] == s[i];
    }
  }

  // ---------------------------------------------------------------------------------------------
  // Texts

  predicate AnyMatch(routes: seq<Route>, address: Ipv4) {
    exists i :: 0 <= i < |routes| && RouteMatches(routes[i], address)
  }

  lemma AnyMatchAppend(routes: seq<Route>, route: Route, address: Ipv4)
    ensures AnyMatch(routes + [route], address) <==> AnyMatch(routes, address) || RouteMatches(route, address)
  {
    var all := routes + [route];
    if RouteMatches(route, address) {
      assert RouteMatches(all[|routes|], address);
    }
    if AnyMatch(routes, address) {
      var i :| 0 <= i < |routes| && RouteMatches(routes[i], address);
      assert RouteMatches(all[i], address);
    }
  }

  /** A separator in front of a text changes nothing for the filter. */
  lemma SeparatorIgnored(c: char, text: string, source: seq<Byte>)
    requires IsBlank(c) || c == ','
    ensures SourceAllowed([c] + text, source) <==> SourceAllowed(text, source)
  {
    var whole := [c] + text;
    assert whole[1..] == text;
    assert Trim([]) == [] && !ItemAllows([], source);
    if c == ',' {
      assert whole[..0] == [];
    } else {
      var length := ItemLength(text);
      assert ItemLength(whole) == length + 1;
      assert whole[..length + 1] == [c] + text[..length];
      assert ([c] + text[..length])[1..] == text[..length];
      assert Trim([c] + text[..length]) == Trim(text[..length]);
      if length < |text| {
        assert whole[length + 2..] == text[length + 1..];
      }
      if text == [] {
        assert text[..length] == [];
      }
    }
  }

  lemma {:induction false} SeparatorsIgnored(text: string, source: seq<Byte>)
    ensures SourceAllowed(SkipSeparators(text), source) <==> SourceAllowed(text, source)
  {
    if text != [] && (IsBlank(text[0]) || text[0] == ',') {
      assert text == [text[0]] + text[1..];
      SeparatorIgnored(text[0], text[1..], source);
      SeparatorsIgnored(text[1..], source);
    }
  }

  /** One item: the route it becomes matches exactly the sources the item allows. */
  lemma RouteOfItem(item: string, identifier: nat, address: Ipv4)
    requires ParseCidr(item).Some?
    ensures var cidr := ParseCidr(item).value;
            cidr.prefix <= 32 &&
            (RouteMatches(Route(MaskAddress(cidr.address, cidr.prefix), cidr.prefix, identifier), address) <==>
             ItemAllows(item, AddressBytes(address)))
  {
    hide ParseCidr, RouteMatches, PrefixMatches, MaskAddress, ParseAllowedIp, Trim;
    var cidr := ParseCidr(item).value;
    ItemAgrees(item);
    MatchAgrees(cidr.address, cidr.prefix, identifier, address);
  }

  /** The filter on a text from its first item on. */
  lemma FirstItem(start: string, source: seq<Byte>)
    requires start != []
    ensures var length := ItemLength(start);
            SourceAllowed(start, source) <==> ItemAllows(start[..length], source) || SourceAllowed(start[length..], source)
  {
    hide ItemAllows;
    var length := ItemLength(start);
    if length < |start| {
      assert start[length..] == [','] + start[length + 1..];
      SeparatorIgnored(',', start[length + 1..], source);
    }
  }

  /** Reading on from any point: the routes added match exactly what the rest of the text allows. */
  lemma {:induction false} RoutesAgree(text: string, routes: seq<Route>, address: Ipv4)
    requires |routes| <= MAXIMUM_POLICY_ROUTES && ParseRoutes(text, routes).ok
    ensures AnyMatch(ParseRoutes(text, routes).routes, address) <==>
            AnyMatch(routes, address) || SourceAllowed(text, AddressBytes(address))
    decreases |text|
  {
    hide ParseCidr, RouteMatches, ItemAllows, MaskAddress, AnyMatch, SourceAllowed;
    if text == [] {
      NothingAllowed(AddressBytes(address));
    } else {
      var start := SkipSeparators(text);
      var length := ItemLength(start);
      var item := start[..length];
      var cidr := ParseCidr(item).value;
      var route := Route(MaskAddress(cidr.address, cidr.prefix), cidr.prefix, |routes| + 1);
      SeparatorsIgnored(text, AddressBytes(address));
      FirstItem(start, AddressBytes(address));
      RouteOfItem(item, |routes| + 1, address);
      RoutesAgree(start[length..], routes + [route], address);
      AnyMatchAppend(routes, route, address);
    }
  }

  lemma NothingAllowed(source: seq<Byte>)
    ensures !SourceAllowed([], source)
  {
  }

  // ---------------------------------------------------------------------------------------------
  // Order

  lemma PrecedesTotal(a: Route, b: Route)
    requires a.identifier != b.identifier
    ensures Precedes(a, b) <==> !Precedes(b, a)
  {
  }

  lemma PrecedesAsymmetric(a: Route, b: Route)
    ensures !(Precedes(a, b) && Precedes(b, a))
  {
  }

  lemma PrecedesTransitive(a: Route, b: Route, c: Route)
    requires Precedes(a, b) && Precedes(b, c)
    ensures Precedes(a, c)
  {
  }

  ghost predicate Ordered(routes: seq<Route>) {
    forall i, j :: 0 <= i < j < |routes| ==> Precedes(routes[i], routes[j])
  }

  ghost predicate Distinct(routes: seq<Route>) {
    forall i, j :: 0 <= i < j < |routes| ==> routes[i].identifier != routes[j].identifier
  }

  lemma {:induction false} InsertOrdered(sorted: seq<Route>, route: Route)
    requires Ordered(sorted) && forall i :: 0 <= i < |sorted| ==> sorted[i].identifier != route.identifier
    ensures Ordered(InsertRoute(sorted, route))
    ensures multiset(InsertRoute(sorted, route)) == multiset(sorted) + multiset{route}
  {
    hide Below;
    InsertMembers(sorted, route);
    if sorted == [] || Precedes(route, sorted[0]) {
      forall i | 0 <= i < |sorted| ensures Precedes(route, sorted[i]) {
        if i > 0 {
          PrecedesTransitive(route, sorted[0], sorted[i]);
        }
      }
    } else {
      PrecedesTotal(route, sorted[0]);
      InsertOrdered(sorted[1..], route);
      hide Precedes;
      var rest := InsertRoute(sorted[1..], route);
      InsertMembers(sorted[1..], route);
      forall i | 0 <= i < |rest| ensures Precedes(sorted[0], rest[i]) {
        assert rest[i] in multiset(rest);
        assert rest[i] == route || rest[i] in sorted[1..];
      }
    }
  }

  lemma {:induction false} InsertMembers(sorted: seq<Route>, route: Route)
    ensures multiset(InsertRoute(sorted, route)) == multiset(sorted) + multiset{route}
  {
    hide Precedes;
    if sorted != [] && !Precedes(route, sorted[0]) {
      InsertMembers(sorted[1..], route);
      assert sorted == [sorted[0]] + sorted[1..];
    }
  }

  /** Sorting orders the routes and loses none. */
  lemma {:induction false} SortOrders(routes: seq<Route>)
    requires Distinct(routes)
    ensures Ordered(SortRoutes(routes)) && multiset(SortRoutes(routes)) == multiset(routes)
  {
    hide Precedes, InsertRoute;
    if routes != [] {
      var last := |routes| - 1;
      SortOrders(routes[..last]);
      var sorted := SortRoutes(routes[..last]);
      forall i | 0 <= i < |sorted| ensures sorted[i].identifier != routes[last].identifier {
        assert sorted[i] in multiset(sorted);
        assert sorted[i] in routes[..last];
      }
      InsertOrdered(sorted, routes[last]);
      assert routes == routes[..last] + [routes[last]];
    }
  }

  /** The order determines the table: any algorithm that sorts by it produces the same sequence. */
  lemma {:induction false} OrderedUnique(a: seq<Route>, b: seq<Route>)
    requires Ordered(a) && Ordered(b) && multiset(a) == multiset(b)
    ensures a == b
  {
    hide Precedes;
    assert |a| == |multiset(a)| == |multiset(b)| == |b|;
    if a != [] {
      assert a[0] in multiset(b) && b[0] in multiset(a);
      FirstOfBoth(a, b);
      SameTails(a, b);
      OrderedUnique(a[1..], b[1..]);
    }
  }

  lemma SameTails(a: seq<Route>, b: seq<Route>)
    requires a != [] && b != [] && a[0] == b[0] && multiset(a) == multiset(b)
    ensures multiset(a[1..]) == multiset(b[1..])
  {
    assert a == [a[0]] + a[1..] && b == [b[0]] + b[1..];
    assert multiset(a[1..]) == multiset(a) - multiset{a[0]};
    assert multiset(b[1..]) == multiset(b) - multiset{b[0]};
  }

  lemma FirstOfBoth(a: seq<Route>, b: seq<Route>)
    requires Ordered(a) && Ordered(b) && a != [] && b != [] && a[0] in b && b[0] in a
    ensures a[0] == b[0]
  {
    var i :| 0 <= i < |a| && a[i] == b[0];
    var j :| 0 <= j < |b| && b[j] == a[0];
    PrecedesAsymmetric(a[0], b[0]);
  }

  // ---------------------------------------------------------------------------------------------
  // Results

  /** What parsing leaves in a route list. */
  ghost predicate Numbered(routes: seq<Route>) {
    forall i :: 0 <= i < |routes| ==>
      routes[i].identifier == i + 1 && routes[i].prefix <= 32 && routes[i].network == MaskAddress(routes[i].network, routes[i].prefix)
  }

  lemma {:induction false} ParsedNumbered(text: string, routes: seq<Route>)
    requires |routes| <= MAXIMUM_POLICY_ROUTES && Numbered(routes)
    ensures Numbered(ParseRoutes(text, routes).routes)
    decreases |text|
  {
    hide ParseCidr, MaskAddress;
    if text != [] {
      var start := SkipSeparators(text);
      var length := ItemLength(start);
      if !(length == 0 || length >= 32 || |routes| >= MAXIMUM_POLICY_ROUTES) && ParseCidr(start[..length]).Some? {
        var cidr := ParseCidr(start[..length]).value;
        RouteOfItem(start[..length], |routes| + 1, ZERO_IPV4);
        NetworkNormalised(cidr.address, cidr.prefix);
        ParsedNumbered(start[length..], routes + [Route(MaskAddress(cidr.address, cidr.prefix), cidr.prefix, |routes| + 1)]);
      }
    }
  }

  lemma NetworkNormalised(address: Ipv4, prefix: nat)
    ensures MaskAddress(MaskAddress(address, prefix), prefix) == MaskAddress(address, prefix)
  {
    hide Masked, CoveredBits;
    MaskTwice(address.b0, CoveredBits(prefix, 0));
    MaskTwice(address.b1, CoveredBits(prefix, 1));
    MaskTwice(address.b2, CoveredBits(prefix, 2));
    MaskTwice(address.b3, CoveredBits(prefix, 3));
  }

  function ParsedList(input: PolicyInput): seq<Route>
    requires input.configuration.Some?
  {
    ParseRoutes(input.configuration.value.allowedIps, []).routes
  }

  /** An accepted policy's table is its routes in order, followed by blanks. */
  lemma AcceptedTable(input: PolicyInput)
    requires ResolvePolicy(input).available
    ensures input.configuration.Some? && ParseRoutes(input.configuration.value.allowedIps, []).ok
    ensures var policy := ResolvePolicy(input);
            policy.count == |ParsedList(input)| <= MAXIMUM_POLICY_ROUTES &&
            policy.routes[..policy.count] == SortRoutes(ParsedList(input)) &&
            Ordered(policy.routes[..policy.count]) && multiset(policy.routes[..policy.count]) == multiset(ParsedList(input)) &&
            Numbered(ParsedList(input))
  {
    var list := ParsedList(input);
    ParsedNumbered(input.configuration.value.allowedIps, []);
    SortOrders(list);
    assert Table(SortRoutes(list))[..|list|] == SortRoutes(list);
  }

  /**
   * Selection: a route is selected exactly when one matches, and it is the match with the longest
   * prefix; among equal prefixes, which then share the network, the one written first.
   */
  lemma SelectsLongestPrefix(input: PolicyInput, address: Ipv4)
    requires ResolvePolicy(input).available
    ensures input.configuration.Some?
    ensures var selected := SelectRoute(ResolvePolicy(input), address);
            if selected.None? then !AnyMatch(ParsedList(input), address)
            else selected.value in ParsedList(input) && RouteMatches(selected.value, address) &&
                 forall q :: q in ParsedList(input) && RouteMatches(q, address) ==>
                   q.prefix < selected.value.prefix ||
                   (q.prefix == selected.value.prefix && q.network == selected.value.network &&
                    selected.value.identifier <= q.identifier)
  {
    AcceptedTable(input);
    hide ResolvePolicy, ParsedList, RouteMatches, SortRoutes, MaskAddress, Precedes, SelectFrom, Ordered;
    var policy := ResolvePolicy(input);
    var list := ParsedList(input);
    SelectedPrecedes(policy, list, address);
    var at := SelectFrom(policy, address, 0);
    if at < policy.count {
      var r := policy.routes[at];
      forall q | q in list && RouteMatches(q, address) ensures
        q.prefix < r.prefix || (q.prefix == r.prefix && q.network == r.network && r.identifier <= q.identifier)
      {
        SamePrefixSameNetwork(r, q, address);
      }
    }
  }

  /** The first match of an ordered table comes before every other match of the list it holds. */
  lemma SelectedPrecedes(policy: Policy, list: seq<Route>, address: Ipv4)
    requires policy.count <= MAXIMUM_POLICY_ROUTES && Ordered(policy.routes[..policy.count])
    requires multiset(policy.routes[..policy.count]) == multiset(list)
    ensures var at := SelectFrom(policy, address, 0);
            (at < policy.count ==> policy.routes[at] in list) &&
            forall q :: q in list && RouteMatches(q, address) ==>
              at < policy.count && (q == policy.routes[at] || Precedes(policy.routes[at], q))
  {
    hide RouteMatches, Precedes, SelectFrom;
    var table := policy.routes[..policy.count];
    var at := SelectFrom(policy, address, 0);
    forall q | q in list && RouteMatches(q, address)
      ensures at < policy.count && (q == policy.routes[at] || Precedes(policy.routes[at], q))
    {
      assert q in multiset(table);
      var k :| 0 <= k < |table| && table[k] == q;
      assert policy.routes[k] == q && at <= k;
      assert at < k ==> Precedes(table[at], table[k]);
    }
    if at < policy.count {
      assert table[at] in multiset(table);
    }
  }

  lemma SamePrefixSameNetwork(r: Route, q: Route, address: Ipv4)
    requires RouteMatches(r, address) && RouteMatches(q, address) && (q == r || Precedes(r, q))
    requires r.network == MaskAddress(r.network, r.prefix) && q.network == MaskAddress(q.network, q.prefix)
    ensures q.prefix < r.prefix || (q.prefix == r.prefix && q.network == r.network && r.identifier <= q.identifier)
  {
    hide MaskAddress;
  }

  /** Agreement: the plane covers an address exactly when the filter allows it as a source. */
  lemma RoutingAgrees(input: PolicyInput, address: Ipv4)
    requires ResolvePolicy(input).available
    ensures input.configuration.Some?
    ensures Covered(ResolvePolicy(input), address) <==>
            SourceAllowed(input.configuration.value.allowedIps, AddressBytes(address))
  {
    AcceptedTable(input);
    SelectsLongestPrefix(input, address);
    RoutesAgree(input.configuration.value.allowedIps, [], address);
    hide ResolvePolicy, RouteMatches, SourceAllowed, SelectRoute;
    if Covered(ResolvePolicy(input), address) {
      var r := SelectRoute(ResolvePolicy(input), address).value;
      var i :| 0 <= i < |ParsedList(input)| && ParsedList(input)[i] == r;
      assert RouteMatches(ParsedList(input)[i], address);
    }
  }

  /** The same, for whole packets: an acceptable IPv4 packet passes the filter iff its source is routed. */
  lemma PacketAgrees(input: PolicyInput, packet: seq<Byte>)
    requires ResolvePolicy(input).available && ValidateIp(packet).0 == Accepted && VersionOf(packet) == Version4
    ensures input.configuration.Some?
    ensures PacketAllowed(packet, input.configuration.value.allowedIps) <==>
            Covered(ResolvePolicy(input), ToIpv4(SourceOf(packet)))
  {
    AcceptedSize(packet);
    hide ResolvePolicy, Covered, SourceAllowed, ValidateIp;
    var source := SourceOf(packet);
    RoutingAgrees(input, ToIpv4(source));
    assert AddressBytes(ToIpv4(source)) == source;
  }
}
