/** What is written for a rule in each format, and what becomes of a packet no rule decides, told of the
    rules themselves. */
module RouteLines {
  import opened Options
  import opened RouteRules
  import opened RouteRenderers
  import opened RouteAgreement
  import L = RouteLinks

  /** A suffix is written without the dot before it, in all formats alike. */
  lemma SuffixWritten(m: Matching, r: Rule, name: string)
    requires r.matcher.HostSuffix? && r.value != "*"
    requires r.value == "." + name || (r.value == name && (name == "" || name[0] != '.'))
    ensures MihomoRule(r) == Line(DOMAIN_SUFFIX, name, MihomoTargetOf(r.action))
    ensures SingBoxRule(m, r).condition == ByDomainSuffix(name)
    ensures XrayRule(r).condition == DomainIs(Domain_(name))
    ensures L.SiteOf(r) == Domain_(name)
  {
    if r.value == "." + name { assert r.value[1..] == name; }
  }

  /** A block of addresses is written as it is; only Mihomo tells the two families apart, by a colon. */
  lemma CidrWritten(m: Matching, r: Rule)
    requires r.matcher.Cidr?
    ensures MihomoRule(r) == Line(if ':' in r.value then IP_CIDR6 else IP_CIDR, r.value, MihomoTargetOf(r.action))
    ensures SingBoxRule(m, r).condition == ByIpCidr(r.value)
    ensures XrayRule(r).condition == IpIs(Network_(r.value))
    ensures L.IsIp(r) && L.IpOf(r) == Network_(r.value)
  {
  }

  /** A country is written as it is; sing-box names the set of the country in lower case. */
  lemma CountryWritten(m: Matching, r: Rule)
    requires r.matcher.GeoIp?
    ensures MihomoRule(r) == Line(GEOIP, r.value, MihomoTargetOf(r.action))
    ensures SingBoxRule(m, r).condition == ByRuleSet("geoip-" + m.lower(r.value))
    ensures XrayRule(r).condition == IpIs(Country(r.value))
    ensures L.IsIp(r) && L.IpOf(r) == Country(r.value)
  {
  }

  // ---------------------------------------------------------------- the catch-all

  /** The first enabled catch-all of a list. */
  ghost predicate FirstCatchAll(rules: seq<Rule>, i: nat) {
    && i < |rules| && rules[i].enabled && rules[i].matcher.HostSuffix? && rules[i].value == "*"
    && forall k | 0 <= k < i :: !(rules[k].enabled && rules[k].matcher.HostSuffix? && rules[k].value == "*")
  }

  lemma {:induction false} DefaultExact(rules: seq<Rule>)
    ensures forall i: nat | FirstCatchAll(rules, i) :: Default(rules) == Some(rules[i].action)
    ensures (forall i: nat :: !FirstCatchAll(rules, i)) ==> Default(rules).None?
    ensures Default(rules).Some? ==> exists i: nat :: FirstCatchAll(rules, i)
  {
    if rules != [] {
      var rest := rules[1..];
      DefaultExact(rest);
      if rules[0].enabled && IsCatchAll(rules[0]) {
        assert FirstCatchAll(rules, 0);
        forall i: nat | FirstCatchAll(rules, i) ensures i == 0 {
        }
      } else {
        forall i: nat ensures FirstCatchAll(rules, i) <==> i > 0 && FirstCatchAll(rest, i - 1) {
          CatchAllLater(rules, i);
        }
        if Default(rest).Some? {
          var i: nat :| FirstCatchAll(rest, i);
          assert FirstCatchAll(rules, i + 1);
        }
      }
    }
  }

  lemma CatchAllLater(rules: seq<Rule>, i: nat)
    requires rules != [] && !(rules[0].enabled && IsCatchAll(rules[0]))
    ensures FirstCatchAll(rules, i) <==> i > 0 && FirstCatchAll(rules[1..], i - 1)
  {
    var rest := rules[1..];
    assert forall k | 0 <= k < |rest| :: rest[k] == rules[k + 1];
    assert forall k | 0 < k < |rules| :: rules[k] == rest[k - 1];
  }

  /** The outbounds of sing-box are the transports, the proxy over them and the direct one, and what it
      names as final is the outbound of the first enabled catch-all, and the proxy if there is none. */
  lemma FinalWritten(m: Matching, rules: seq<Rule>, network: Network, transports: seq<string>)
    ensures SingBox(m, rules, network, transports).outbounds[..|transports|] == transports
    ensures SingBox(m, rules, network, transports).outbounds[|transports|..] == ["proxy", "direct"]
    ensures var final := SingBox(m, rules, network, transports).final; (
      && ((forall i: nat :: !FirstCatchAll(rules, i)) ==> final == "proxy")
      && forall i: nat | FirstCatchAll(rules, i) ::
           final == match rules[i].action case DIRECT => "direct" case BLOCK => "block" case PROXY => "proxy")
  {
    DefaultExact(rules);
    EnabledDefault(rules);
  }

  /** For every rule list, with or without a catch-all: where the rules decide, sing-box decides alike,
      except for a first catch-all that blocks, which it leaves undecided; and it proxies what a list
      without a catch-all leaves undecided. */
  lemma SingBoxDecides(m: Matching, rules: seq<Rule>, network: Network, transports: seq<string>, p: Packet)
    requires Sane(m) && "direct" !in transports && "block" !in transports
    ensures var decision := SingBoxDecision(m, SingBox(m, rules, network, transports), p);
      var falls := Ordered(m, rules, p).None? && !Rejected(network, p); (
      && (!falls ==> decision == Decision(m, rules, network, p))
      && (falls && (forall i: nat :: !FirstCatchAll(rules, i)) ==>
            Decision(m, rules, network, p).None? && decision == Some(PROXY))
      && forall i: nat | falls && FirstCatchAll(rules, i) ::
           decision == if rules[i].action.BLOCK? then None else Some(rules[i].action))
  {
    var profile := SingBox(m, rules, network, transports);
    DefaultExact(rules);
    if Default(rules).Some? {
      SingBoxAgrees(m, rules, network, transports, p);
    } else {
      SingBoxOrdered(m, rules, network, transports, p);
      FinalWritten(m, rules, network, transports);
      OutboundTags(transports);
    }
  }

  lemma SingBoxOrdered(m: Matching, rules: seq<Rule>, network: Network, transports: seq<string>, p: Packet)
    requires Sane(m) && "direct" !in transports && "block" !in transports
    ensures var profile := SingBox(m, rules, network, transports);
      First(Map(profile.rules, SingBoxReader(m, profile, p))) ==
      if Ordered(m, rules, p).Some? then Ordered(m, rules, p) else if Rejected(network, p) then Some(BLOCK) else None
  {
    var profile := SingBox(m, rules, network, transports);
    var write, read, on := SingBoxWriter(m), SingBoxReader(m, profile, p), Enabled(rules);
    var ipv6 := SingBoxRuleLine(ByIpVersion6, SingBoxReject);
    var quic := SingBoxRuleLine(ByNetworkAndPort(true, 443), SingBoxReject);
    SingBoxFaithful(m, rules, network, transports, p);
    ParticularRead(m, rules, p, write, read);
    IfRead(!network.ipv6, ipv6, read);
    IfRead(network.blockQuic, quic, read);
    FourParts(Map(Particular(on), write), If(!network.ipv6, ipv6), If(network.blockQuic, quic), [], read);
    assert profile.rules + [] == profile.rules;
  }
}
