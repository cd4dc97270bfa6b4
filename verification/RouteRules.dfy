/** The ordered route rules of a subscription and what they decide for a packet. */
module RouteRules {
  import opened Options
  import opened GeoSiteRules
  import opened Strings

  datatype RouteMatcher = Host | HostSuffix | HostKeyword | HostRegex | Cidr | GeoIp
  datatype Action = PROXY | DIRECT | BLOCK
  datatype Rule = Rule(matcher: RouteMatcher, value: string, action: Action, enabled: bool)
  datatype Network = Network(ipv6: bool, blockQuic: bool)

  /** A packet as a client sees it: the host name it is for, if known, its address family, and
      whether it goes by UDP to port 443. */
  datatype Packet = Packet(host: Option<string>, address: Option<string>, v6: bool, udp: bool, port: nat)

  /** Matching the renderers leave to the clients. */
  datatype Matching = Matching(
    keyword: (string, string) -> bool,
    regex: (string, string) -> bool,
    cidr: (string, string) -> bool,
    geoip: (string, string) -> bool,
    lower: string -> string)

  const ALL_IPV6 := "::/0"

  /** What the theorems need of the clients: the block of all IPv6 addresses holds exactly those, and
      country codes are compared without regard to case. */
  ghost predicate Sane(m: Matching) {
    forall value, address :: m.geoip(m.lower(value), address) == m.geoip(value, address)
  }

  ghost predicate Addressed(m: Matching, p: Packet) {
    p.v6 <==> p.address.Some? && m.cidr(ALL_IPV6, p.address.value)
  }

  predicate IsCatchAll(r: Rule) {
    r.matcher.HostSuffix? && r.value == "*"
  }

  predicate UnderSuffix(host: string, suffix: string) {
    host == suffix || EndsWith(host, "." + suffix)
  }

  predicate Applies(m: Matching, r: Rule, p: Packet) {
    match r.matcher
    case Host => p.host == Some(r.value)
    case HostSuffix => p.host.Some? && UnderSuffix(p.host.value, Stripped(r.value))
    case HostKeyword => p.host.Some? && m.keyword(r.value, p.host.value)
    case HostRegex => p.host.Some? && m.regex(r.value, p.host.value)
    case Cidr => p.address.Some? && m.cidr(r.value, p.address.value)
    case GeoIp => p.address.Some? && m.geoip(r.value, p.address.value)
  }

  predicate IsQuic(p: Packet) {
    p.udp && p.port == 443
  }

  /** The first enabled rule that applies, catch-alls aside. */
  function Ordered(m: Matching, rules: seq<Rule>, p: Packet): Option<Action> {
    if rules == [] then None
    else if rules[0].enabled && !IsCatchAll(rules[0]) && Applies(m, rules[0], p) then Some(rules[0].action)
    else Ordered(m, rules[1..], p)
  }

  /** The first enabled catch-all. */
  function Default(rules: seq<Rule>): Option<Action> {
    if rules == [] then None
    else if rules[0].enabled && IsCatchAll(rules[0]) then Some(rules[0].action)
    else Default(rules[1..])
  }

  predicate Rejected(network: Network, p: Packet) {
    (!network.ipv6 && p.v6) || (network.blockQuic && IsQuic(p))
  }

  /** What the rules mean: enabled rules in order, then the rejection of IPv6 and of QUIC, then the
      first catch-all. */
  function Decision(m: Matching, rules: seq<Rule>, network: Network, p: Packet): Option<Action> {
    var ordered := Ordered(m, rules, p);
    if ordered.Some? then ordered
    else if Rejected(network, p) then Some(BLOCK)
    else Default(rules)
  }

  // ---------------------------------------------------------------- first match

  /** The verdict of a list is that of its first member with one. */
  function First(verdicts: seq<Option<Action>>): Option<Action> {
    if verdicts == [] then None
    else if verdicts[0].Some? then verdicts[0]
    else First(verdicts[1..])
  }

  lemma {:induction false} FirstOfBoth(a: seq<Option<Action>>, b: seq<Option<Action>>)
    ensures First(a + b) == if First(a).Some? then First(a) else First(b)
  {
    if a == [] {
      assert a + b == b;
    } else {
      assert (a + b)[1..] == a[1..] + b;
      FirstOfBoth(a[1..], b);
    }
  }

  function Filter(rules: seq<Rule>, wanted: Rule -> bool): seq<Rule> {
    if rules == [] then []
    else if wanted(rules[0]) then [rules[0]] + Filter(rules[1..], wanted)
    else Filter(rules[1..], wanted)
  }

  function Map<T, U>(items: seq<T>, f: T -> U): (r: seq<U>)
    ensures |r| == |items| && forall i | 0 <= i < |items| :: r[i] == f(items[i])
  {
    seq(|items|, i requires 0 <= i < |items| => f(items[i]))
  }

  lemma MapBoth<T, U>(a: seq<T>, b: seq<T>, f: T -> U)
    ensures Map(a + b, f) == Map(a, f) + Map(b, f)
  {
  }
}
