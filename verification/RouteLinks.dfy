/** The grouped routing profile of link subscriptions: six lists without an order between them. */
module RouteLinks {
  import opened Options
  import opened GeoSiteRules
  import opened RouteRules
  import opened RouteRenderers
  import opened RouteAgreement

  datatype LinkProfile = LinkProfile(
    directSites: seq<XrayDomain>, directIps: seq<XrayIp>,
    proxySites: seq<XrayDomain>, proxyIps: seq<XrayIp>,
    blockSites: seq<XrayDomain>, blockIps: seq<XrayIp>)

  predicate IsIp(r: Rule) {
    r.matcher.Cidr? || r.matcher.GeoIp?
  }

  function SiteOf(r: Rule): XrayDomain {
    match r.matcher
    case Host => Full(r.value)
    case HostKeyword => Plain(r.value)
    case HostRegex => Regexp(r.value)
    case _ => Domain_(Stripped(r.value))
  }

  function IpOf(r: Rule): XrayIp {
    if r.matcher.Cidr? then Network_(r.value) else Country(r.value)
  }

  /** The rule goes to the sites, or to the addresses, of an action. */
  predicate Goes(r: Rule, action: Action, ip: bool) {
    !IsCatchAll(r) && r.action == action && IsIp(r) == ip
  }

  function Sites(rules: seq<Rule>, action: Action): seq<XrayDomain> {
    if rules == [] then []
    else
      var before, last := Sites(rules[..|rules| - 1], action), rules[|rules| - 1];
      if Goes(last, action, false) then before + [SiteOf(last)] else before
  }

  function Ips(rules: seq<Rule>, action: Action): seq<XrayIp> {
    if rules == [] then []
    else
      var before, last := Ips(rules[..|rules| - 1], action), rules[|rules| - 1];
      if Goes(last, action, true) then before + [IpOf(last)] else before
  }

  function Profile(rules: seq<Rule>, network: Network): LinkProfile {
    LinkProfile(
      Sites(rules, DIRECT), Ips(rules, DIRECT),
      Sites(rules, PROXY), Ips(rules, PROXY),
      Sites(rules, BLOCK), Ips(rules, BLOCK) + If(!network.ipv6, Network_(ALL_IPV6)))
  }

  class Group {
    var sites: seq<XrayDomain>
    var ips: seq<XrayIp>

    constructor ()
      ensures sites == [] && ips == []
    {
      sites, ips := [], [];
    }
  }

  ghost predicate Holds(g: Group, rules: seq<Rule>, action: Action)
    reads g
  {
    g.sites == Sites(rules, action) && g.ips == Ips(rules, action)
  }

  /** Each rule is pushed to one list of the group of its action. */
  method IncyRoutingProfile(rules: seq<Rule>, network: Network) returns (profile: LinkProfile)
    ensures profile == Profile(rules, network)
  {
    var direct := new Group();
    var proxy := new Group();
    var block := new Group();
    for n := 0 to |rules|
      invariant fresh(direct) && fresh(proxy) && fresh(block)
      invariant direct != proxy && proxy != block && direct != block
      invariant Holds(direct, rules[..n], DIRECT) && Holds(proxy, rules[..n], PROXY) && Holds(block, rules[..n], BLOCK)
    {
      var r := rules[n];
      assert rules[..n + 1][..n] == rules[..n];
      if r.matcher.HostSuffix? && r.value == "*" { continue; }
      var target := match r.action case DIRECT => direct case PROXY => proxy case BLOCK => block;
      if IsIp(r) {
        target.ips := target.ips + [IpOf(r)];
      } else {
        target.sites := target.sites + [SiteOf(r)];
      }
    }
    assert rules[..|rules|] == rules;
    profile := LinkProfile(direct.sites, direct.ips, proxy.sites, proxy.ips, block.sites,
                           block.ips + (if network.ipv6 then [] else [Network_(ALL_IPV6)]));
  }

  // ---------------------------------------------------------------- one list each, in order

  /** Every rule but a catch-all is in exactly one of the six lists. */
  lemma {:induction false} EachOnce(rules: seq<Rule>)
    ensures |Sites(rules, DIRECT)| + |Ips(rules, DIRECT)| + |Sites(rules, PROXY)| + |Ips(rules, PROXY)|
          + |Sites(rules, BLOCK)| + |Ips(rules, BLOCK)| == |Particular(rules)|
    decreases |rules|
  {
    if rules != [] {
      var front, last := rules[..|rules| - 1], rules[|rules| - 1];
      EachOnce(front);
      FilterPush(front, last, (r: Rule) => !IsCatchAll(r));
      assert rules == front + [last];
    }
  }

  lemma {:induction false} FilterPush(rules: seq<Rule>, r: Rule, wanted: Rule -> bool)
    ensures Filter(rules + [r], wanted) == if wanted(r) then Filter(rules, wanted) + [r] else Filter(rules, wanted)
  {
    if rules == [] {
      assert ([] + [r])[1..] == [];
    } else {
      assert (rules + [r])[1..] == rules[1..] + [r];
      FilterPush(rules[1..], r, wanted);
    }
  }

  /** The place of a rule in its list counts the rules of that list before it, so each list keeps the
      order of the rules. */
  lemma {:induction false} InOrder(rules: seq<Rule>, n: nat)
    requires n < |rules| && !IsCatchAll(rules[n])
    ensures var a, place, item := rules[n].action, rules[..n], rules[n];
      if IsIp(item) then |Ips(place, a)| < |Ips(rules, a)| && Ips(rules, a)[|Ips(place, a)|] == IpOf(item)
      else |Sites(place, a)| < |Sites(rules, a)| && Sites(rules, a)[|Sites(place, a)|] == SiteOf(item)
    decreases |rules|
  {
    var front := rules[..|rules| - 1];
    if n < |front| {
      InOrder(front, n);
      assert front[..n] == rules[..n];
    }
  }

  // ---------------------------------------------------------------- what the groups decide

  predicate SiteApplies(m: Matching, sites: seq<XrayDomain>, p: Packet) {
    p.host.Some? && exists i :: 0 <= i < |sites| && XrayDomainApplies(m, sites[i], p.host.value)
  }

  predicate IpApplies(m: Matching, ips: seq<XrayIp>, p: Packet) {
    p.address.Some? && exists i :: 0 <= i < |ips| && XrayIpApplies(m, ips[i], p.address.value)
  }

  predicate GroupApplies(m: Matching, profile: LinkProfile, action: Action, p: Packet) {
    match action
    case DIRECT => SiteApplies(m, profile.directSites, p) || IpApplies(m, profile.directIps, p)
    case PROXY => SiteApplies(m, profile.proxySites, p) || IpApplies(m, profile.proxyIps, p)
    case BLOCK => SiteApplies(m, profile.blockSites, p) || IpApplies(m, profile.blockIps, p)
  }

  /** A client tries the groups in some order; what no group takes is proxied. */
  function GroupDecision(m: Matching, profile: LinkProfile, order: seq<Action>, p: Packet): Action {
    if order == [] then PROXY
    else if GroupApplies(m, profile, order[0], p) then order[0]
    else GroupDecision(m, profile, order[1..], p)
  }

  predicate Complete(order: seq<Action>) {
    PROXY in order && DIRECT in order && BLOCK in order
  }

  /** An enabled rule of the action applies, or the action blocks and the packet is rejected IPv6. */
  predicate Claims(m: Matching, rules: seq<Rule>, network: Network, action: Action, p: Packet) {
    || (exists i :: 0 <= i < |rules| && rules[i].enabled && !IsCatchAll(rules[i])
          && rules[i].action == action && Applies(m, rules[i], p))
    || (action.BLOCK? && !network.ipv6 && p.v6)
  }

  lemma {:induction false} SitesApply(m: Matching, rules: seq<Rule>, action: Action, p: Packet)
    ensures SiteApplies(m, Sites(rules, action), p) || IpApplies(m, Ips(rules, action), p) <==>
            exists i :: 0 <= i < |rules| && !IsCatchAll(rules[i]) && rules[i].action == action && Applies(m, rules[i], p)
    decreases |rules|
  {
    if rules != [] {
      var front, last := rules[..|rules| - 1], rules[|rules| - 1];
      SitesApply(m, front, action, p);
      assert forall i | 0 <= i < |front| :: front[i] == rules[i];
      ApplyPushed(m, Sites(front, action), SiteOf(last), p);
      ApplyIpPushed(m, Ips(front, action), IpOf(last), p);
      assert rules[|rules| - 1] == last;
    }
  }

  lemma ApplyPushed(m: Matching, sites: seq<XrayDomain>, site: XrayDomain, p: Packet)
    ensures SiteApplies(m, sites + [site], p) <==>
            SiteApplies(m, sites, p) || (p.host.Some? && XrayDomainApplies(m, site, p.host.value))
  {
    var more := sites + [site];
    assert more[|sites|] == site;
    assert forall i | 0 <= i < |sites| :: more[i] == sites[i];
  }

  lemma ApplyIpPushed(m: Matching, ips: seq<XrayIp>, ip: XrayIp, p: Packet)
    ensures IpApplies(m, ips + [ip], p) <==>
            IpApplies(m, ips, p) || (p.address.Some? && XrayIpApplies(m, ip, p.address.value))
  {
    var more := ips + [ip];
    assert more[|ips|] == ip;
    assert forall i | 0 <= i < |ips| :: more[i] == ips[i];
  }

  lemma GroupClaims(m: Matching, rules: seq<Rule>, network: Network, action: Action, p: Packet)
    requires Addressed(m, p)
    ensures GroupApplies(m, Profile(Enabled(rules), network), action, p) <==> Claims(m, rules, network, action, p)
  {
    var on := Enabled(rules);
    SitesApply(m, on, action, p);
    ApplyIpPushed(m, Ips(on, BLOCK), Network_(ALL_IPV6), p);
    assert Ips(on, BLOCK) + [] == Ips(on, BLOCK);
    EnabledApplies(m, rules, action, p);
  }

  lemma EnabledApplies(m: Matching, rules: seq<Rule>, action: Action, p: Packet)
    ensures var on := Enabled(rules);
      (exists i :: 0 <= i < |on| && !IsCatchAll(on[i]) && on[i].action == action && Applies(m, on[i], p)) <==>
      (exists i :: 0 <= i < |rules| && rules[i].enabled && !IsCatchAll(rules[i]) && rules[i].action == action
         && Applies(m, rules[i], p))
  {
    var on := Enabled(rules);
    forall r ensures r in on <==> r in rules && r.enabled {
      FilterIn(rules, (r: Rule) => r.enabled, r);
    }
    if i :| 0 <= i < |on| && !IsCatchAll(on[i]) && on[i].action == action && Applies(m, on[i], p) {
      assert on[i] in on;
      var k :| 0 <= k < |rules| && rules[k] == on[i];
    }
    if i :| 0 <= i < |rules| && rules[i].enabled && !IsCatchAll(rules[i]) && rules[i].action == action && Applies(m, rules[i], p) {
      assert rules[i] in on;
      var k :| 0 <= k < |on| && on[k] == rules[i];
    }
  }

  /** No two actions claim the packet. */
  predicate Clear(m: Matching, rules: seq<Rule>, network: Network, p: Packet) {
    forall a: Action, b: Action | Claims(m, rules, network, a, p) && Claims(m, rules, network, b, p) :: a == b
  }

  lemma {:induction false} OnlyClaim(m: Matching, profile: LinkProfile, order: seq<Action>, p: Packet, action: Action)
    requires forall a | a in order && GroupApplies(m, profile, a, p) :: a == action
    ensures GroupDecision(m, profile, order, p) ==
            if action in order && GroupApplies(m, profile, action, p) then action else PROXY
  {
    if order != [] {
      OnlyClaim(m, profile, order[1..], p, action);
      assert action in order <==> action == order[0] || action in order[1..];
    }
  }

  lemma {:induction false} OrderedClaims(m: Matching, rules: seq<Rule>, p: Packet)
    ensures Ordered(m, rules, p).Some? <==>
            exists i :: 0 <= i < |rules| && rules[i].enabled && !IsCatchAll(rules[i]) && Applies(m, rules[i], p)
    ensures Ordered(m, rules, p).Some? ==>
            exists i :: 0 <= i < |rules| && rules[i].enabled && !IsCatchAll(rules[i])
              && Ordered(m, rules, p) == Some(rules[i].action) && Applies(m, rules[i], p)
  {
    if rules != [] {
      OrderedClaims(m, rules[1..], p);
      assert forall i | 0 <= i < |rules[1..]| :: rules[1..][i] == rules[i + 1];
      if !(rules[0].enabled && !IsCatchAll(rules[0]) && Applies(m, rules[0], p)) {
        if i :| 0 <= i < |rules| && rules[i].enabled && !IsCatchAll(rules[i]) && Applies(m, rules[i], p) {
          assert rules[1..][i - 1] == rules[i];
        }
      }
    }
  }

  /** For a packet that at most one action claims, and every order of the groups, the profile decides
      as the rules do if and only if something claims it, or it is not rejected QUIC and the first
      catch-all is PROXY: the profile has no rule against QUIC and proxies whatever is left. */
  lemma LinksAgree(m: Matching, rules: seq<Rule>, network: Network, order: seq<Action>, p: Packet)
    requires Addressed(m, p) && Complete(order) && Clear(m, rules, network, p)
    ensures Decision(m, rules, network, p) == Some(GroupDecision(m, Profile(Enabled(rules), network), order, p)) <==>
            || (exists a: Action :: Claims(m, rules, network, a, p))
            || (!(network.blockQuic && IsQuic(p)) && Default(rules) == Some(PROXY))
  {
    var profile := Profile(Enabled(rules), network);
    forall a: Action ensures GroupApplies(m, profile, a, p) <==> Claims(m, rules, network, a, p) {
      GroupClaims(m, rules, network, a, p);
    }
    OrderedClaims(m, rules, p);
    if a :| Claims(m, rules, network, a, p) {
      OnlyClaim(m, profile, order, p, a);
      assert a in order by { match a case PROXY => case DIRECT => case BLOCK => }
    } else {
      OnlyClaim(m, profile, order, p, PROXY);
      assert !Claims(m, rules, network, BLOCK, p);
    }
  }

  /** When two actions claim a packet, the order of the groups decides. */
  lemma OrderMatters(m: Matching, rules: seq<Rule>, network: Network, p: Packet, a: Action, b: Action)
    requires Addressed(m, p) && a != b && Claims(m, rules, network, a, p) && Claims(m, rules, network, b, p)
    ensures exists first, second ::
      (Complete(first) && Complete(second)
       && GroupDecision(m, Profile(Enabled(rules), network), first, p)
          != GroupDecision(m, Profile(Enabled(rules), network), second, p))
  {
    var profile := Profile(Enabled(rules), network);
    GroupClaims(m, rules, network, a, p);
    GroupClaims(m, rules, network, b, p);
    var first, second := [a, PROXY, DIRECT, BLOCK], [b, PROXY, DIRECT, BLOCK];
    assert first[1] == second[1] == PROXY && first[2] == second[2] == DIRECT && first[3] == second[3] == BLOCK;
    assert GroupDecision(m, profile, first, p) == a && GroupDecision(m, profile, second, p) == b;
  }
}
