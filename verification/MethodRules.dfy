/** Exactly which methods can be saved and what the list is afterwards, told of the settings, ports and
    names themselves. */
module MethodRules {
  import opened Options
  import opened MethodCatalogue
  import opened MethodStore
  import S = MethodService

  /** What an engine can serve. */
  lemma Servable(e: Engine, p: Protocol)
    ensures p in Capabilities(e) <==>
            match e
            case Hysteria => p.Hysteria2?
            case Xray => p.Xhttp? || p.Grpc?
            case Mihomo => p.Hysteria2? || p.Xhttp? || p.Grpc? || p.AnyTls? || p.TrustTunnel?
            case SingBox => p.Hysteria2? || p.Grpc? || p.AnyTls? || p.Naive?
            case AmneziaWg => p.Amnezia?
  {
  }

  /** Both listen on UDP, or both on TCP. */
  predicate SameTransport(a: Protocol, b: Protocol) {
    (a.Hysteria2? || a.Amnezia?) <==> (b.Hysteria2? || b.Amnezia?)
  }

  lemma TransportExact(a: Protocol, b: Protocol)
    ensures ShareNetwork(a, b) <==> SameTransport(a, b)
  {
    if SameTransport(a, b) {
      if a.Hysteria2? || a.Amnezia? {
        assert UDP in Networks(a) * Networks(b);
      } else {
        assert TCP in Networks(a) * Networks(b);
      }
    }
  }

  /** The settings of a method are all right, whatever else is stored: its engine is installed and serves
      its protocol, its name is no routing policy, Xray listens behind the edge, any other engine on an
      open port, or Hysteria on 443, no port of another service is taken, and exactly the two protocols
      with a path have one. */
  predicate Sound(r: Rules, m: Method) {
    && m.engine in r.installed && m.protocol in Capabilities(m.engine)
    && r.upper(m.name) != "PROXY" && r.upper(m.name) != "DIRECT" && r.upper(m.name) != "REJECT" && r.upper(m.name) != "GLOBAL"
    && (if m.engine.Xray? then
          m.port == 443 && m.path == Some(if m.protocol.Xhttp? then r.platform.paths.xhttp else r.platform.paths.grpc)
        else m.port >= 1024 || (m.engine.Hysteria? && m.port == 443))
    && m.port != 8181 && m.port != 8443 && m.port != 10000 && m.port != 10001
    && m.port != 9999 && m.port != 10085 && m.port != 9097 && m.port != 10086
    && (if m.protocol.Xhttp? || m.protocol.Grpc?
        then r.platform.wellFormed(m.protocol, if m.path.Some? then m.path.value else "")
        else m.path.None? || m.path == Some(""))
  }

  /** Two methods can stand beside each other: other names, not both of an engine that runs one listener,
      not both Xray with one protocol, and not both enabled on one port and transport, unless both are
      behind the edge. */
  predicate Beside(p: Platform, m: Method, other: Method) {
    && p.fold(m.name) != p.fold(other.name)
    && !(m.engine == other.engine && (m.engine.Hysteria? || m.engine.AmneziaWg?))
    && !(m.engine.Xray? && other.engine.Xray? && m.protocol == other.protocol)
    && !(m.enabled && other.enabled && m.port == other.port && SameTransport(m.protocol, other.protocol)
         && !(m.engine.Xray? && other.engine.Xray?))
  }

  lemma SoundExact(r: Rules, m: Method)
    ensures Acceptable(r, m) <==> Sound(r, m)
  {
    Servable(m.engine, m.protocol);
  }

  lemma BesideExact(p: Platform, m: Method, other: Method)
    ensures Fits(p, m, other) <==> Beside(p, m, other)
  {
    TransportExact(m.protocol, other.protocol);
  }

  /** The first method with the id has the engine and protocol of the new one. */
  ghost predicate Changes(methods: seq<Method>, m: Method) {
    exists i :: 0 <= i < |methods| && methods[i].id == m.id
                && methods[i].engine == m.engine && methods[i].protocol == m.protocol
                && forall k | 0 <= k < i :: methods[k].id != m.id
  }

  lemma {:induction false} FindFirst(methods: seq<Method>, id: string, i: nat)
    requires i < |methods| && methods[i].id == id && forall k | 0 <= k < i :: methods[k].id != id
    ensures Find(methods, id) == Some(methods[i])
  {
    if i > 0 { FindFirst(methods[1..], id, i - 1); }
  }

  lemma {:induction false} FirstFound(methods: seq<Method>, id: string) returns (i: nat)
    requires Find(methods, id).Some?
    ensures i < |methods| && methods[i].id == id && Find(methods, id) == Some(methods[i])
    ensures forall k | 0 <= k < i :: methods[k].id != id
  {
    if methods[0].id == id {
      i := 0;
    } else {
      var rest := FirstFound(methods[1..], id);
      i := rest + 1;
      assert forall k | 0 < k < i :: methods[k] == methods[1..][k - 1];
    }
  }

  lemma ChangesExact(methods: seq<Method>, m: Method)
    ensures Changes(methods, m) <==>
            Find(methods, m.id).Some? && Find(methods, m.id).value.engine == m.engine
            && Find(methods, m.id).value.protocol == m.protocol
  {
    if Find(methods, m.id).Some? {
      var i := FirstFound(methods, m.id);
      assert methods[i].id == m.id;
    }
    if i :| 0 <= i < |methods| && methods[i].id == m.id
            && methods[i].engine == m.engine && methods[i].protocol == m.protocol
            && forall k | 0 <= k < i :: methods[k].id != m.id {
      FindFirst(methods, m.id, i);
    }
  }

  /** A method is saved if and only if its settings are all right, it can stand beside every other, and,
      where it is to replace one, there is one with its id, engine and protocol. */
  lemma SaveExact(r: Rules, methods: seq<Method>, m: Method, replace: bool)
    ensures Saved(r, methods, m, replace).Some? <==>
            && Sound(r, m) && (replace ==> Changes(methods, m))
            && forall i | 0 <= i < |methods| && methods[i].id != m.id :: Beside(r.platform, m, methods[i])
  {
    SoundExact(r, m);
    ChangesExact(methods, m);
    var next := if replace then Replace(methods, m) else methods + [m];
    forall i | 0 <= i < |methods| ensures Fits(r.platform, m, methods[i]) <==> Beside(r.platform, m, methods[i]) {
      BesideExact(r.platform, m, methods[i]);
    }
    assert forall i | 0 <= i < |methods| :: methods[i].id != m.id ==> next[i] == methods[i];
    assert forall i | 0 <= i < |next| && next[i].id != m.id :: i < |methods| && next[i] == methods[i];
    assert Valid(r, next, m) <==>
           Acceptable(r, m) && forall i | 0 <= i < |methods| && methods[i].id != m.id :: Fits(r.platform, m, methods[i]);
  }

  /** The list then has the method in the place of the one it replaces, or at its end, and nothing else
      has changed. */
  lemma SavedList(r: Rules, methods: seq<Method>, m: Method, replace: bool)
    requires Saved(r, methods, m, replace).Some?
    ensures var next := Saved(r, methods, m, replace).value;
      if replace then
        |next| == |methods| && forall i | 0 <= i < |methods| :: next[i] == if methods[i].id == m.id then m else methods[i]
      else next == methods + [m]
  {
  }

  lemma {:induction false} PeersOf(methods: seq<Method>, id: string, i: nat)
    requires i < |methods| && methods[i].id == id && forall k | 0 <= k < |methods| && k != i :: methods[k].id != id
    ensures Peers(methods, id) == methods[..i] + methods[i + 1..]
    decreases |methods|
  {
    var front, last := methods[..|methods| - 1], |methods| - 1;
    if i == last {
      AllPeers(front, id);
      assert methods[i + 1..] == [];
    } else {
      PeersOf(front, id, i);
      assert front[..i] == methods[..i] && front[i + 1..] + [methods[last]] == methods[i + 1..];
    }
  }

  lemma {:induction false} AllPeers(methods: seq<Method>, id: string)
    requires forall k | 0 <= k < |methods| :: methods[k].id != id
    ensures Peers(methods, id) == methods
    decreases |methods|
  {
    if methods != [] {
      AllPeers(methods[..|methods| - 1], id);
    }
  }

  /** A method is removed if and only if there is one with its id. */
  lemma RemoveTaken(methods: seq<Method>, id: string)
    ensures Removed(methods, id).Some? <==> exists i :: 0 <= i < |methods| && methods[i].id == id
  {
    if Find(methods, id).Some? {
      var i := FirstFound(methods, id);
      assert methods[i].id == id;
    } else {
      NoFind(methods, id);
    }
  }

  /** The one with the id leaves, and the others stay in their order. */
  lemma RemovedList(methods: seq<Method>, id: string, i: nat)
    requires i < |methods| && methods[i].id == id && forall k | 0 <= k < |methods| && k != i :: methods[k].id != id
    ensures Removed(methods, id) == Some(methods[..i] + methods[i + 1..])
  {
    PeersOf(methods, id, i);
    RemoveTaken(methods, id);
  }

  // ---------------------------------------------------------------- the default ports

  /** The port a search for a free one starts from: the one the protocol has with its own engine, and
      elsewhere that and a thousand for each engine before this one. */
  lemma PortsFrom(e: Engine, p: Protocol)
    requires p in Capabilities(e)
    ensures DefaultPort(e, p) ==
            match e
            case Hysteria => 443
            case Xray => 443
            case Mihomo => if p.AnyTls? then 1443 else 2443
            case SingBox => if p.AnyTls? then 4443 else 3443
            case AmneziaWg => 51820
  {
    Servable(e, p);
  }

  /** A port counts as taken there when another service has it, or a method with the same transport, even
      one that is not enabled. */
  lemma TakenExact(items: seq<Method>, protocol: Protocol, port: nat)
    ensures S.Taken(items, protocol, port) <==>
            || port == 8181 || port == 8443 || port == 10000 || port == 10001
            || port == 9999 || port == 10085 || port == 9097 || port == 10086
            || exists i :: 0 <= i < |items| && items[i].port == port && SameTransport(items[i].protocol, protocol)
  {
    forall i | 0 <= i < |items|
      ensures ShareNetwork(items[i].protocol, protocol) <==> SameTransport(items[i].protocol, protocol) {
      TransportExact(items[i].protocol, protocol);
    }
  }

  // ---------------------------------------------------------------- the default methods

  function Default(e: Engine, tag: string, p: Protocol, name: string, port: nat, path: Option<string>): Method {
    Method(tag, e, p, name, true, port, path)
  }

  /** The methods an engine has by default. */
  function OwnDefaults(paths: Paths, e: Engine): seq<Method> {
    match e
    case Hysteria => [Default(e, "hysteria" + "-" + "hysteria2", Hysteria2, "Hysteria 2", 443, None)]
    case Xray => [Default(e, "xray" + "-" + "xhttp", Xhttp, "VLESS XHTTP", 443, Some(paths.xhttp)),
                  Default(e, "xray" + "-" + "grpc", Grpc, "VLESS gRPC", 443, Some(paths.grpc))]
    case Mihomo => [Default(e, "mihomo" + "-" + "anytls", AnyTls, "AnyTLS", 1443, None),
                    Default(e, "mihomo" + "-" + "trusttunnel", TrustTunnel, "TrustTunnel", 2443, None)]
    case SingBox => [Default(e, "sing-box" + "-" + "naive", Naive, "Naive", 3443, None)]
    case AmneziaWg => [Default(e, "amneziawg" + "-" + "amneziawg", Amnezia, "AmneziaWG 3.1", 51820, None)]
  }

  lemma {:induction false} ServedPush(order: seq<Engine>, e: Engine)
    ensures Served(order + [e]) == Served(order) + ServedBy(e)
  {
    if order == [] {
      assert ([] + [e])[1..] == [];
    } else {
      assert (order + [e])[1..] == order[1..] + [e];
      ServedPush(order[1..], e);
    }
  }

  /** The default methods come engine after engine, each engine's own in their order. */
  lemma DefaultsExact(p: Platform, order: seq<Engine>, e: Engine)
    ensures Defaults(p, []) == []
    ensures Defaults(p, order + [e]) == Defaults(p, order) + OwnDefaults(p.paths, e)
  {
    ServedPush(order, e);
    var own := OwnDefaults(p.paths, e);
    assert |ServedBy(e)| == |own|;
    forall i | 0 <= i < |own| ensures DefaultMethod(p, ServedBy(e)[i].0, ServedBy(e)[i].1) == own[i] {
    }
  }
}
