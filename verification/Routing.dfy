/** Outbound cryptokey routing: AllowedIPs text parsed into normalised routes, and route selection. */
module Routing {
  import opened Counting
  import opened TunnelProtocol
  import opened TextScan

  // ---------------------------------------------------------------------------------------------
  // Masks

  /** A byte and-ed with the mask of its `bits` leading bits. */
  function Masked(value: Byte, bits: nat): Byte
    requires bits <= 8
  {
    match bits
    case 0 => 0
    case 1 => value / 128 * 128
    case 2 => value / 64 * 64
    case 3 => value / 32 * 32
    case 4 => value / 16 * 16
    case 5 => value / 8 * 8
    case 6 => value / 4 * 4
    case 7 => value / 2 * 2
    case _ => value
  }

  /** How many bits of byte `index` a prefix of `prefix` bits covers. */
  function CoveredBits(prefix: nat, index: nat): (bits: nat)
    ensures bits <= 8
  {
    if prefix >= index * 8 + 8 then 8 else if prefix <= index * 8 then 0 else prefix - index * 8
  }

  function MaskAddress(address: Ipv4, prefix: nat): Ipv4 {
    Ipv4(Masked(address.b0, CoveredBits(prefix, 0)), Masked(address.b1, CoveredBits(prefix, 1)),
         Masked(address.b2, CoveredBits(prefix, 2)), Masked(address.b3, CoveredBits(prefix, 3)))
  }

  // ---------------------------------------------------------------------------------------------
  // Normalised routes

  datatype Route = Route(network: Ipv4, prefix: nat, identifier: nat)

  const NO_ROUTE := Route(ZERO_IPV4, 0, 0)

  type Routes = s: seq<Route> | |s| == MAXIMUM_POLICY_ROUTES witness Repeat(NO_ROUTE, MAXIMUM_POLICY_ROUTES)

  /** The routing policy in force; `routes` is the whole fixed table, of which `count` entries apply. */
  datatype Policy = Policy(
    available: bool, routes: Routes, count: nat, source: Ipv4, peer: PeerIdentity,
    leakProtection: bool, mtu: nat)

  const NO_POLICY :=
    Policy(false, Repeat(NO_ROUTE, MAXIMUM_POLICY_ROUTES), 0, ZERO_IPV4, NO_PEER, false, DEFAULT_INNER_MTU)

  predicate RouteMatches(route: Route, address: Ipv4) {
    MaskAddress(route.network, route.prefix) == MaskAddress(address, route.prefix)
  }

  /** The first matching route at or after `from`, or `count`. */
  function SelectFrom(policy: Policy, address: Ipv4, from: nat): (i: nat)
    requires policy.count <= MAXIMUM_POLICY_ROUTES && from <= policy.count
    ensures from <= i <= policy.count
    ensures i < policy.count ==> RouteMatches(policy.routes[i], address)
    ensures forall j :: from <= j < i ==> !RouteMatches(policy.routes[j], address)
    decreases policy.count - from
  {
    if from == policy.count || RouteMatches(policy.routes[from], address) then from
    else SelectFrom(policy, address, from + 1)
  }

  function SelectRoute(policy: Policy, address: Ipv4): Option<Route> {
    if !policy.available || policy.count > MAXIMUM_POLICY_ROUTES then None
    else
      var i := SelectFrom(policy, address, 0);
      if i < policy.count then Some(policy.routes[i]) else None
  }

  predicate Covered(policy: Policy, address: Ipv4) {
    SelectRoute(policy, address).Some?
  }

  /** The order of the table: longer prefixes first, then by network, then by position in the text. */
  predicate Precedes(a: Route, b: Route) {
    if a.prefix != b.prefix then a.prefix > b.prefix
    else if a.network != b.network then Below(a.network, b.network)
    else a.identifier < b.identifier
  }

  predicate Below(a: Ipv4, b: Ipv4) {
    if a.b0 != b.b0 then a.b0 < b.b0
    else if a.b1 != b.b1 then a.b1 < b.b1
    else if a.b2 != b.b2 then a.b2 < b.b2
    else a.b3 < b.b3
  }

  function InsertRoute(sorted: seq<Route>, route: Route): (r: seq<Route>)
    ensures |r| == |sorted| + 1
  {
    if sorted == [] || Precedes(route, sorted[0]) then [route] + sorted
    else [sorted[0]] + InsertRoute(sorted[1..], route)
  }

  function SortRoutes(routes: seq<Route>): (r: seq<Route>)
    ensures |r| == |routes|
  {
    if routes == [] then [] else InsertRoute(SortRoutes(routes[..|routes| - 1]), routes[|routes| - 1])
  }

  /** A route list written at the start of an otherwise blank table. */
  function Table(routes: seq<Route>): Routes
    requires |routes| <= MAXIMUM_POLICY_ROUTES
  {
    routes + Repeat(NO_ROUTE, MAXIMUM_POLICY_ROUTES - |routes|)
  }

  // ---------------------------------------------------------------------------------------------
  // The plane's parser

  /** Reads digits off the front, failing as soon as the value passes `limit`. */
  function ReadDigits(text: string, value: nat, limit: nat): Option<(nat, string)> {
    if text == [] || !IsDigit(text[0]) then Some((value, text))
    else
      var next := value * 10 + DigitValue(text[0]);
      if next > limit then None else ReadDigits(text[1..], next, limit)
  }

  /** At least one digit. */
  function ReadNumber(text: string, limit: nat): Option<(nat, string)> {
    if text == [] || !IsDigit(text[0]) then None else ReadDigits(text, 0, limit)
  }

  /** An octet followed by the given separator. */
  function ReadOctet(text: string, separator: char): Option<(Byte, string)> {
    var number := ReadNumber(text, 255);
    if number.None? || number.value.1 == [] || number.value.1[0] != separator || number.value.0 > 255 then None
    else Some((number.value.0, number.value.1[1..]))
  }

  datatype Cidr = Cidr(address: Ipv4, prefix: nat)

  /** `n` octets separated by dots, the last one followed by a slash. */
  function ReadOctets(text: string, n: nat): (r: Option<(seq<Byte>, string)>)
    ensures r.Some? ==> |r.value.0| == n
    decreases n
  {
    if n == 0 then Some(([], text))
    else
      var octet := ReadOctet(text, if n == 1 then '/' else '.');
      if octet.None? then None
      else
        var rest := ReadOctets(octet.value.1, n - 1);
        if rest.None? then None else Some(([octet.value.0] + rest.value.0, rest.value.1))
  }

  function ToIpv4(bytes: seq<Byte>): Ipv4
    requires |bytes| == 4
  {
    Ipv4(bytes[0], bytes[1], bytes[2], bytes[3])
  }

  function ParseCidr(text: string): Option<Cidr> {
    var octets := ReadOctets(text, 4);
    if octets.None? then None
    else
      var prefix := ReadNumber(octets.value.1, 32);
      if prefix.None? || !AllBlank(prefix.value.1) then None
      else Some(Cidr(ToIpv4(octets.value.0), prefix.value.0))
  }

  /** Skips blanks and commas in front of an item. */
  function SkipSeparators(text: string): (rest: string)
    ensures |rest| <= |text|
  {
    if text != [] && (IsBlank(text[0]) || text[0] == ',') then SkipSeparators(text[1..]) else text
  }

  /** The routes read so far and whether the whole text was accepted. */
  datatype ParsedRoutes = ParsedRoutes(ok: bool, routes: seq<Route>)

  function ParseRoutes(text: string, routes: seq<Route>): (r: ParsedRoutes)
    requires |routes| <= MAXIMUM_POLICY_ROUTES
    ensures |r.routes| <= MAXIMUM_POLICY_ROUTES
    decreases |text|
  {
    if text == [] then ParsedRoutes(true, routes)
    else
      var start := SkipSeparators(text);
      var length := ItemLength(start);
      if length == 0 || length >= 32 || |routes| >= MAXIMUM_POLICY_ROUTES then ParsedRoutes(false, routes)
      else
        var cidr := ParseCidr(start[..length]);
        if cidr.None? then ParsedRoutes(false, routes)
        else
          var route := Route(MaskAddress(cidr.value.address, cidr.value.prefix), cidr.value.prefix, |routes| + 1);
          ParseRoutes(start[length..], routes + [route])
  }

  datatype PeerConfiguration = PeerConfiguration(
    address: string, allowedIps: string, mtu: U16, leakProtection: bool)

  datatype PolicyInput = PolicyInput(
    configuration: Option<PeerConfiguration>, peer: PeerIdentity, selected: bool)

  function EffectiveMtu(mtu: U16): nat {
    if mtu == 0 then DEFAULT_INNER_MTU else mtu
  }

  /** A rejected policy keeps whatever routes were read before the rejection, with a count of zero. */
  function Rejected(routes: seq<Route>): Policy
    requires |routes| <= MAXIMUM_POLICY_ROUTES
  {
    NO_POLICY.(routes := Table(routes))
  }

  function ResolvePolicy(input: PolicyInput): Policy {
    if !input.selected || input.configuration.None? || input.peer.activation == 0 then Rejected([])
    else
      var configuration := input.configuration.value;
      var mtu := EffectiveMtu(configuration.mtu);
      if !(MINIMUM_INNER_MTU <= mtu <= MAXIMUM_INNER_MTU) then Rejected([])
      else
        var source := ParseCidr(configuration.address);
        if source.None? then Rejected([])
        else
          var parsed := ParseRoutes(configuration.allowedIps, []);
          if !parsed.ok || parsed.routes == [] then Rejected(parsed.routes)
          else Policy(true, Table(SortRoutes(parsed.routes)), |parsed.routes|, source.value.address, input.peer,
                      configuration.leakProtection, mtu)
  }
}
