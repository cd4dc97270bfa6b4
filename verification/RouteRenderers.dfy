/** The rule lists of the three ordered formats, and what their clients make of them. */
module RouteRenderers {
  import opened Options
  import opened GeoSiteRules
  import opened RouteRules

  function Enabled(rules: seq<Rule>): seq<Rule> {
    Filter(rules, (r: Rule) => r.enabled)
  }

  function Particular(rules: seq<Rule>): seq<Rule> {
    Filter(rules, (r: Rule) => !IsCatchAll(r))
  }

  function CatchAlls(rules: seq<Rule>): seq<Rule> {
    Filter(rules, (r: Rule) => IsCatchAll(r))
  }

  function If<T>(condition: bool, item: T): seq<T> {
    if condition then [item] else []
  }

  // ---------------------------------------------------------------- Mihomo

  datatype MihomoType = DOMAIN | DOMAIN_SUFFIX | DOMAIN_KEYWORD | DOMAIN_REGEX | IP_CIDR | IP_CIDR6 | GEOIP
  datatype MihomoTarget = TO_PROXY | TO_DIRECT | REJECT
  datatype MihomoLine =
    | Line(kind: MihomoType, value: string, target: MihomoTarget)
    | NetworkAndPort(udp: bool, port: nat, target: MihomoTarget)
    | MATCH(target: MihomoTarget)

  function MihomoTargetOf(action: Action): MihomoTarget {
    match action case BLOCK => REJECT case PROXY => TO_PROXY case DIRECT => TO_DIRECT
  }

  function MihomoRule(r: Rule): MihomoLine {
    var target := MihomoTargetOf(r.action);
    if r.matcher.HostSuffix? && r.value == "*" then MATCH(target)
    else
      var value := if r.matcher.HostSuffix? then Stripped(r.value) else r.value;
      var kind := match r.matcher
        case Host => DOMAIN
        case HostSuffix => DOMAIN_SUFFIX
        case HostKeyword => DOMAIN_KEYWORD
        case HostRegex => DOMAIN_REGEX
        case Cidr => if ':' in value then IP_CIDR6 else IP_CIDR
        case GeoIp => GEOIP;
      Line(kind, value, target)
  }

  function MihomoRules(rules: seq<Rule>, network: Network): seq<MihomoLine> {
    var on := Enabled(rules);
    Map(Particular(on), MihomoWriter())
    + If(!network.ipv6, Line(IP_CIDR6, ALL_IPV6, REJECT))
    + If(network.blockQuic, NetworkAndPort(true, 443, REJECT))
    + Map(CatchAlls(on), MihomoWriter())
  }

  predicate MihomoApplies(m: Matching, line: MihomoLine, p: Packet) {
    match line
    case MATCH(_) => true
    case NetworkAndPort(udp, port, _) => p.udp == udp && p.port == port
    case Line(kind, value, _) =>
      match kind
      case DOMAIN => p.host == Some(value)
      case DOMAIN_SUFFIX => p.host.Some? && UnderSuffix(p.host.value, value)
      case DOMAIN_KEYWORD => p.host.Some? && m.keyword(value, p.host.value)
      case DOMAIN_REGEX => p.host.Some? && m.regex(value, p.host.value)
      case GEOIP => p.address.Some? && m.geoip(value, p.address.value)
      case _ => p.address.Some? && m.cidr(value, p.address.value)
  }

  function MihomoVerdict(m: Matching, p: Packet, line: MihomoLine): Option<Action> {
    if MihomoApplies(m, line, p)
    then Some(match line.target case REJECT => BLOCK case TO_PROXY => PROXY case TO_DIRECT => DIRECT)
    else None
  }

  function MihomoDecision(m: Matching, lines: seq<MihomoLine>, p: Packet): Option<Action> {
    First(Map(lines, MihomoReader(m, p)))
  }

  function MihomoReader(m: Matching, p: Packet): MihomoLine -> Option<Action> {
    (line: MihomoLine) => MihomoVerdict(m, p, line)
  }

  function MihomoWriter(): Rule -> MihomoLine {
    (r: Rule) => MihomoRule(r)
  }

  // ---------------------------------------------------------------- sing-box

  datatype SingBoxMatch =
    | ByDomain(value: string)
    | ByDomainSuffix(value: string)
    | ByDomainKeyword(value: string)
    | ByDomainRegex(value: string)
    | ByIpCidr(value: string)
    | ByRuleSet(tag: string)
    | ByIpVersion6
    | ByNetworkAndPort(udp: bool, port: nat)
  datatype SingBoxAction = SingBoxReject | SingBoxRoute(outbound: string)
  datatype SingBoxRuleLine = SingBoxRuleLine(condition: SingBoxMatch, action: SingBoxAction)

  /** A remote rule set: its tag and the country code it is loaded for. */
  datatype RuleSet = RuleSet(tag: string, code: string)
  datatype SingBoxProfile = SingBoxProfile(
    outbounds: seq<string>, sets: seq<RuleSet>, rules: seq<SingBoxRuleLine>, final: string)

  function SetTag(code: string): string {
    "geoip-" + code
  }

  function SingBoxRule(m: Matching, r: Rule): SingBoxRuleLine {
    var condition := match r.matcher
      case Host => ByDomain(r.value)
      case HostSuffix => ByDomainSuffix(Stripped(r.value))
      case HostKeyword => ByDomainKeyword(r.value)
      case HostRegex => ByDomainRegex(r.value)
      case Cidr => ByIpCidr(r.value)
      case GeoIp => ByRuleSet(SetTag(m.lower(r.value)));
    var action := match r.action
      case BLOCK => SingBoxReject
      case DIRECT => SingBoxRoute("direct")
      case PROXY => SingBoxRoute("proxy");
    SingBoxRuleLine(condition, action)
  }

  /** The sets the rules refer to, each once. */
  function SingBoxSets(m: Matching, rules: seq<Rule>): seq<RuleSet> {
    if rules == [] then []
    else
      var before, last := SingBoxSets(m, rules[..|rules| - 1]), rules[|rules| - 1];
      if !last.matcher.GeoIp? || SetOf(m, last) in before then before else before + [SetOf(m, last)]
  }

  function SetOf(m: Matching, r: Rule): RuleSet {
    RuleSet(SetTag(m.lower(r.value)), m.lower(r.value))
  }

  function CatchAllTag(rules: seq<Rule>): string {
    match Default(rules)
    case Some(DIRECT) => "direct"
    case Some(BLOCK) => "block"
    case _ => "proxy"
  }

  function SingBox(m: Matching, rules: seq<Rule>, network: Network, transports: seq<string>): SingBoxProfile {
    var on := Enabled(rules);
    SingBoxProfile(
      transports + ["proxy", "direct"],
      SingBoxSets(m, on),
      Map(Particular(on), SingBoxWriter(m))
      + If(!network.ipv6, SingBoxRuleLine(ByIpVersion6, SingBoxReject))
      + If(network.blockQuic, SingBoxRuleLine(ByNetworkAndPort(true, 443), SingBoxReject)),
      CatchAllTag(on))
  }

  predicate SingBoxApplies(m: Matching, sets: seq<RuleSet>, condition: SingBoxMatch, p: Packet) {
    match condition
    case ByDomain(value) => p.host == Some(value)
    case ByDomainSuffix(value) => p.host.Some? && UnderSuffix(p.host.value, value)
    case ByDomainKeyword(value) => p.host.Some? && m.keyword(value, p.host.value)
    case ByDomainRegex(value) => p.host.Some? && m.regex(value, p.host.value)
    case ByIpCidr(value) => p.address.Some? && m.cidr(value, p.address.value)
    case ByRuleSet(tag) =>
      p.address.Some? && exists i :: 0 <= i < |sets| && sets[i].tag == tag && m.geoip(sets[i].code, p.address.value)
    case ByIpVersion6 => p.v6
    case ByNetworkAndPort(udp, port) => p.udp == udp && p.port == port
  }

  /** An outbound by its tag; a tag that names none leads nowhere. */
  function Leads(outbounds: seq<string>, tag: string): Option<Action> {
    if tag !in outbounds then None else if tag == "direct" then Some(DIRECT) else Some(PROXY)
  }

  function SingBoxVerdict(m: Matching, profile: SingBoxProfile, p: Packet, line: SingBoxRuleLine): Option<Action> {
    if !SingBoxApplies(m, profile.sets, line.condition, p) then None
    else match line.action
      case SingBoxReject => Some(BLOCK)
      case SingBoxRoute(outbound) => Leads(profile.outbounds, outbound)
  }

  function SingBoxDecision(m: Matching, profile: SingBoxProfile, p: Packet): Option<Action> {
    var verdict := First(Map(profile.rules, SingBoxReader(m, profile, p)));
    if verdict.Some? then verdict else Leads(profile.outbounds, profile.final)
  }

  function SingBoxReader(m: Matching, profile: SingBoxProfile, p: Packet): SingBoxRuleLine -> Option<Action> {
    (line: SingBoxRuleLine) => SingBoxVerdict(m, profile, p, line)
  }

  function SingBoxWriter(m: Matching): Rule -> SingBoxRuleLine {
    (r: Rule) => SingBoxRule(m, r)
  }

  // ---------------------------------------------------------------- Xray

  datatype XrayDomain = Full(value: string) | Plain(value: string) | Regexp(value: string) | Domain_(value: string)
  datatype XrayIp = Network_(value: string) | Country(value: string)
  datatype XrayMatch =
    | DomainIs(domain: XrayDomain)
    | IpIs(ip: XrayIp)
    | AnyNetwork
    | UdpPort(port: nat)
  datatype XrayTarget = Balancer | Outbound(tag: string)
  datatype XrayLine = XrayLine(condition: XrayMatch, target: XrayTarget)

  function XrayRule(r: Rule): XrayLine {
    var target := match r.action case PROXY => Balancer case DIRECT => Outbound("direct") case BLOCK => Outbound("block");
    if r.matcher.HostSuffix? && r.value == "*" then XrayLine(AnyNetwork, target)
    else match r.matcher
      case Cidr => XrayLine(IpIs(Network_(r.value)), target)
      case GeoIp => XrayLine(IpIs(Country(r.value)), target)
      case Host => XrayLine(DomainIs(Full(r.value)), target)
      case HostKeyword => XrayLine(DomainIs(Plain(r.value)), target)
      case HostRegex => XrayLine(DomainIs(Regexp(r.value)), target)
      case HostSuffix => XrayLine(DomainIs(Domain_(Stripped(r.value))), target)
  }

  function XrayRules(rules: seq<Rule>, network: Network): seq<XrayLine> {
    var on := Enabled(rules);
    Map(Particular(on), XrayWriter())
    + If(!network.ipv6, XrayLine(IpIs(Network_(ALL_IPV6)), Outbound("block")))
    + If(network.blockQuic, XrayLine(UdpPort(443), Outbound("block")))
    + Map(CatchAlls(on), XrayWriter())
  }

  predicate XrayDomainApplies(m: Matching, d: XrayDomain, host: string) {
    match d
    case Full(value) => host == value
    case Plain(value) => m.keyword(value, host)
    case Regexp(value) => m.regex(value, host)
    case Domain_(value) => UnderSuffix(host, value)
  }

  predicate XrayIpApplies(m: Matching, ip: XrayIp, address: string) {
    match ip
    case Network_(value) => m.cidr(value, address)
    case Country(value) => m.geoip(value, address)
  }

  predicate XrayApplies(m: Matching, condition: XrayMatch, p: Packet) {
    match condition
    case AnyNetwork => true
    case UdpPort(port) => p.udp && p.port == port
    case DomainIs(d) => p.host.Some? && XrayDomainApplies(m, d, p.host.value)
    case IpIs(ip) => p.address.Some? && XrayIpApplies(m, ip, p.address.value)
  }

  /** The balancer picks among the proxies; the other outbounds are freedom and blackhole. */
  function XrayLeads(target: XrayTarget): Option<Action> {
    match target
    case Balancer => Some(PROXY)
    case Outbound(tag) => if tag == "direct" then Some(DIRECT) else if tag == "block" then Some(BLOCK) else None
  }

  function XrayVerdict(m: Matching, p: Packet, line: XrayLine): Option<Action> {
    if XrayApplies(m, line.condition, p) then XrayLeads(line.target) else None
  }

  function XrayDecision(m: Matching, lines: seq<XrayLine>, p: Packet): Option<Action> {
    First(Map(lines, XrayReader(m, p)))
  }

  function XrayReader(m: Matching, p: Packet): XrayLine -> Option<Action> {
    (line: XrayLine) => XrayVerdict(m, p, line)
  }

  function XrayWriter(): Rule -> XrayLine {
    (r: Rule) => XrayRule(r)
  }
}
