/** The three ordered formats decide every packet as the rules do. */
module RouteAgreement {
  import opened Options
  import opened GeoSiteRules
  import opened RouteRules
  import opened RouteRenderers

  function Verdict(m: Matching, r: Rule, p: Packet): Option<Action> {
    if Applies(m, r, p) then Some(r.action) else None
  }

  /** A format writes the rules so that its client reads each as it is meant. */
  ghost predicate Faithful<T>(m: Matching, rules: seq<Rule>, p: Packet, write: Rule -> T, read: T -> Option<Action>) {
    forall i | 0 <= i < |rules| && rules[i].enabled && !IsCatchAll(rules[i]) ::
      read(write(rules[i])) == Verdict(m, rules[i], p)
  }

  lemma {:induction false} ParticularRead<T>(m: Matching, rules: seq<Rule>, p: Packet, write: Rule -> T, read: T -> Option<Action>)
    requires Faithful(m, rules, p, write, read)
    ensures First(Map(Map(Particular(Enabled(rules)), write), read)) == Ordered(m, rules, p)
  {
    if rules != [] {
      var rest := rules[1..];
      assert Faithful(m, rest, p, write, read) by {
        assert forall i | 0 <= i < |rest| :: rest[i] == rules[i + 1];
      }
      ParticularRead(m, rest, p, write, read);
      ParticularHead(rules);
      if rules[0].enabled && !IsCatchAll(rules[0]) {
        WrittenHead(rules[0], Particular(Enabled(rest)), write, read);
      }
    }
  }

  lemma ParticularHead(rules: seq<Rule>)
    requires rules != []
    ensures var rest := Particular(Enabled(rules[1..]));
      Particular(Enabled(rules)) == if rules[0].enabled && !IsCatchAll(rules[0]) then [rules[0]] + rest else rest
    ensures var rest := CatchAlls(Enabled(rules[1..]));
      CatchAlls(Enabled(rules)) == if rules[0].enabled && IsCatchAll(rules[0]) then [rules[0]] + rest else rest
  {
    var rest := Enabled(rules[1..]);
    if rules[0].enabled {
      assert Enabled(rules) == [rules[0]] + rest;
      assert ([rules[0]] + rest)[1..] == rest;
    } else {
      assert Enabled(rules) == rest;
    }
  }

  lemma {:induction false} CatchAllRead<T>(rules: seq<Rule>, write: Rule -> T, read: T -> Option<Action>)
    requires forall i | 0 <= i < |rules| && IsCatchAll(rules[i]) :: read(write(rules[i])) == Some(rules[i].action)
    ensures First(Map(Map(CatchAlls(Enabled(rules)), write), read)) == Default(rules)
  {
    if rules != [] {
      var rest := rules[1..];
      assert forall i | 0 <= i < |rest| :: rest[i] == rules[i + 1];
      CatchAllRead(rest, write, read);
      ParticularHead(rules);
      if rules[0].enabled && IsCatchAll(rules[0]) {
        WrittenHead(rules[0], CatchAlls(Enabled(rest)), write, read);
      }
    }
  }

  lemma WrittenHead<T>(r: Rule, rest: seq<Rule>, write: Rule -> T, read: T -> Option<Action>)
    ensures First(Map(Map([r] + rest, write), read)) ==
            if read(write(r)).Some? then read(write(r)) else First(Map(Map(rest, write), read))
  {
    var tail := Map(Map(rest, write), read);
    assert Map(Map([r] + rest, write), read) == [read(write(r))] + tail;
    assert ([read(write(r))] + tail)[1..] == tail;
  }

  /** Four parts read one after the other. */
  lemma FourParts<T>(a: seq<T>, b: seq<T>, c: seq<T>, d: seq<T>, read: T -> Option<Action>)
    ensures First(Map(a + b + c + d, read)) ==
            if First(Map(a, read)).Some? then First(Map(a, read))
            else if First(Map(b, read)).Some? then First(Map(b, read))
            else if First(Map(c, read)).Some? then First(Map(c, read))
            else First(Map(d, read))
  {
    MapBoth(a + b + c, d, read);
    MapBoth(a + b, c, read);
    MapBoth(a, b, read);
    FirstOfBoth(Map(a + b + c, read), Map(d, read));
    FirstOfBoth(Map(a + b, read), Map(c, read));
    FirstOfBoth(Map(a, read), Map(b, read));
  }

  lemma IfRead<T>(condition: bool, item: T, read: T -> Option<Action>)
    ensures First(Map(If(condition, item), read)) == if condition then read(item) else None
  {
    if condition {
      assert Map([item], read) == [read(item)];
      assert First([read(item)]) == read(item);
    }
  }

  // ---------------------------------------------------------------- Mihomo and Xray

  lemma MihomoFaithful(m: Matching, rules: seq<Rule>, p: Packet)
    ensures Faithful(m, rules, p, MihomoWriter(), MihomoReader(m, p))
  {
  }

  /** For every rule list and packet, the Mihomo profile decides as the rules do. */
  lemma MihomoAgrees(m: Matching, rules: seq<Rule>, network: Network, p: Packet)
    requires Addressed(m, p)
    ensures MihomoDecision(m, MihomoRules(rules, network), p) == Decision(m, rules, network, p)
  {
    var write, read, on := MihomoWriter(), MihomoReader(m, p), Enabled(rules);
    var ipv6, quic := Line(IP_CIDR6, ALL_IPV6, REJECT), NetworkAndPort(true, 443, REJECT);
    MihomoFaithful(m, rules, p);
    ParticularRead(m, rules, p, write, read);
    CatchAllRead(rules, write, read);
    IfRead(!network.ipv6, ipv6, read);
    IfRead(network.blockQuic, quic, read);
    FourParts(Map(Particular(on), write), If(!network.ipv6, ipv6), If(network.blockQuic, quic),
              Map(CatchAlls(on), write), read);
  }

  lemma XrayFaithful(m: Matching, rules: seq<Rule>, p: Packet)
    ensures Faithful(m, rules, p, XrayWriter(), XrayReader(m, p))
  {
  }

  /** For every rule list and packet, the Xray profile decides as the rules do. */
  lemma XrayAgrees(m: Matching, rules: seq<Rule>, network: Network, p: Packet)
    requires Addressed(m, p)
    ensures XrayDecision(m, XrayRules(rules, network), p) == Decision(m, rules, network, p)
  {
    var write, read, on := XrayWriter(), XrayReader(m, p), Enabled(rules);
    var ipv6, quic := XrayLine(IpIs(Network_(ALL_IPV6)), Outbound("block")), XrayLine(UdpPort(443), Outbound("block"));
    XrayFaithful(m, rules, p);
    ParticularRead(m, rules, p, write, read);
    CatchAllRead(rules, write, read);
    IfRead(!network.ipv6, ipv6, read);
    IfRead(network.blockQuic, quic, read);
    FourParts(Map(Particular(on), write), If(!network.ipv6, ipv6), If(network.blockQuic, quic),
              Map(CatchAlls(on), write), read);
  }

  // ---------------------------------------------------------------- sing-box

  /** The tag of a set gives back its code. */
  lemma TagInjective(a: string, b: string)
    requires SetTag(a) == SetTag(b)
    ensures a == b
  {
    assert SetTag(a)[|"geoip-"|..] == a && SetTag(b)[|"geoip-"|..] == b;
  }

  /** Exactly the sets the rules refer to are defined. */
  lemma {:induction false} SetsIn(m: Matching, rules: seq<Rule>, s: RuleSet)
    ensures s in SingBoxSets(m, rules) <==> exists r :: r in rules && r.matcher.GeoIp? && s == SetOf(m, r)
    decreases |rules|
  {
    if rules != [] {
      var front, last := rules[..|rules| - 1], rules[|rules| - 1];
      SetsIn(m, front, s);
      assert rules == front + [last];
      assert last in rules && forall r :: r in rules <==> r in front || r == last;
    }
  }

  /** Each set is tagged by its code, and defined once under its tag. */
  predicate WellTagged(sets: seq<RuleSet>) {
    && (forall i | 0 <= i < |sets| :: sets[i].tag == SetTag(sets[i].code))
    && (forall i, k | 0 <= i < k < |sets| :: sets[i].tag != sets[k].tag)
  }

  lemma {:induction false} SetsOnce(m: Matching, rules: seq<Rule>)
    ensures WellTagged(SingBoxSets(m, rules))
    decreases |rules|
  {
    if rules != [] {
      var front, last := rules[..|rules| - 1], rules[|rules| - 1];
      SetsOnce(m, front);
      AddedOnce(SingBoxSets(m, front), SetOf(m, last));
    }
  }

  lemma AddedOnce(sets: seq<RuleSet>, added: RuleSet)
    requires WellTagged(sets) && added.tag == SetTag(added.code)
    ensures added !in sets ==> WellTagged(sets + [added])
  {
    if added !in sets {
      forall i | 0 <= i < |sets| ensures sets[i].tag != added.tag {
        assert sets[i] in sets;
        if sets[i].tag == added.tag { TagInjective(sets[i].code, added.code); }
      }
    }
  }

  /** A rule for a country is read through the one set with its tag. */
  lemma SetRead(m: Matching, rules: seq<Rule>, r: Rule, address: string)
    requires Sane(m) && r in rules && r.matcher.GeoIp?
    ensures var sets := SingBoxSets(m, rules); var tag := SetTag(m.lower(r.value));
      (exists i :: 0 <= i < |sets| && sets[i].tag == tag && m.geoip(sets[i].code, address)) <==> m.geoip(r.value, address)
  {
    SetsIn(m, rules, SetOf(m, r));
    SetsOnce(m, rules);
    var sets, tag := SingBoxSets(m, rules), SetTag(m.lower(r.value));
    assert SetOf(m, r) in sets;
    assert m.geoip(m.lower(r.value), address) == m.geoip(r.value, address);
    forall i | 0 <= i < |sets| && sets[i].tag == tag ensures sets[i].code == m.lower(r.value) {
      TagInjective(sets[i].code, m.lower(r.value));
    }
  }

  lemma {:induction false} FilterIn(rules: seq<Rule>, wanted: Rule -> bool, r: Rule)
    ensures r in Filter(rules, wanted) <==> r in rules && wanted(r)
  {
    if rules != [] { FilterIn(rules[1..], wanted, r); }
  }

  lemma OutboundTags(transports: seq<string>)
    requires "direct" !in transports && "block" !in transports
    ensures var tags := transports + ["proxy", "direct"]; "proxy" in tags && "direct" in tags && "block" !in tags
  {
    var tags := transports + ["proxy", "direct"];
    assert tags[|transports|] == "proxy" && tags[|transports| + 1] == "direct";
  }

  lemma SingBoxApplied(m: Matching, rules: seq<Rule>, p: Packet, r: Rule)
    requires Sane(m) && r in rules
    ensures SingBoxApplies(m, SingBoxSets(m, rules), SingBoxRule(m, r).condition, p) <==> Applies(m, r, p)
  {
    if r.matcher.GeoIp? && p.address.Some? {
      SetRead(m, rules, r, p.address.value);
    }
  }

  lemma SingBoxFaithful(m: Matching, rules: seq<Rule>, network: Network, transports: seq<string>, p: Packet)
    requires Sane(m) && "direct" !in transports && "block" !in transports
    ensures Faithful(m, rules, p, SingBoxWriter(m), SingBoxReader(m, SingBox(m, rules, network, transports), p))
  {
    var profile := SingBox(m, rules, network, transports);
    OutboundTags(transports);
    forall i | 0 <= i < |rules| && rules[i].enabled && !IsCatchAll(rules[i])
      ensures SingBoxVerdict(m, profile, p, SingBoxRule(m, rules[i])) == Verdict(m, rules[i], p) {
      FilterIn(rules, (r: Rule) => r.enabled, rules[i]);
      SingBoxApplied(m, Enabled(rules), p, rules[i]);
    }
  }

  lemma EnabledDefault(rules: seq<Rule>)
    ensures Default(Enabled(rules)) == Default(rules)
  {
    if rules != [] {
      EnabledDefault(rules[1..]);
      if rules[0].enabled {
        assert ([rules[0]] + Enabled(rules[1..]))[1..] == Enabled(rules[1..]);
      }
    }
  }

  /** For every rule list with a catch-all and every packet, the sing-box profile decides as the rules
      do, unless the packet falls through to a first catch-all that blocks: its outbound is not in the
      profile, so the packet is left undecided. */
  lemma SingBoxAgrees(m: Matching, rules: seq<Rule>, network: Network, transports: seq<string>, p: Packet)
    requires Sane(m) && "direct" !in transports && "block" !in transports && Default(rules).Some?
    ensures var decision := SingBoxDecision(m, SingBox(m, rules, network, transports), p);
      var falls := Ordered(m, rules, p).None? && !Rejected(network, p);
      && (decision == Decision(m, rules, network, p) <==> !(falls && Default(rules) == Some(BLOCK)))
      && (falls && Default(rules) == Some(BLOCK) ==> decision.None?)
  {
    var profile := SingBox(m, rules, network, transports);
    var write, read, on := SingBoxWriter(m), SingBoxReader(m, profile, p), Enabled(rules);
    var ipv6 := SingBoxRuleLine(ByIpVersion6, SingBoxReject);
    var quic := SingBoxRuleLine(ByNetworkAndPort(true, 443), SingBoxReject);
    SingBoxFaithful(m, rules, network, transports, p);
    ParticularRead(m, rules, p, write, read);
    IfRead(!network.ipv6, ipv6, read);
    IfRead(network.blockQuic, quic, read);
    FourParts(Map(Particular(on), write), If(!network.ipv6, ipv6), If(network.blockQuic, quic), [], read);
    assert profile.rules + [] == profile.rules;
    EnabledDefault(rules);
    OutboundTags(transports);
  }
}
