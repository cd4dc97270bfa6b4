/** The shared catalogue of connection methods: engines, what they can serve, and default settings. */
module MethodCatalogue {
  import opened Options

  datatype Engine = Hysteria | Xray | Mihomo | SingBox | AmneziaWg
  datatype Protocol = Hysteria2 | Xhttp | Grpc | AnyTls | TrustTunnel | Naive | Amnezia
  datatype Transport = TCP | UDP

  function IndexOf(engine: Engine): nat {
    match engine case Hysteria => 0 case Xray => 1 case Mihomo => 2 case SingBox => 3 case AmneziaWg => 4
  }

  function Capabilities(engine: Engine): seq<Protocol> {
    match engine
    case Hysteria => [Hysteria2]
    case Xray => [Xhttp, Grpc]
    case Mihomo => [Hysteria2, Xhttp, Grpc, AnyTls, TrustTunnel]
    case SingBox => [Hysteria2, Grpc, AnyTls, Naive]
    case AmneziaWg => [Amnezia]
  }

  /** The manifest: each protocol's networks, port, name, and the engine that serves it by default. */
  function Networks(protocol: Protocol): set<Transport> {
    match protocol case Hysteria2 => {UDP} case Amnezia => {UDP} case _ => {TCP}
  }

  function DefaultEngine(protocol: Protocol): Engine {
    match protocol
    case Hysteria2 => Hysteria
    case Xhttp => Xray
    case Grpc => Xray
    case AnyTls => Mihomo
    case TrustTunnel => Mihomo
    case Naive => SingBox
    case Amnezia => AmneziaWg
  }

  function ManifestPort(protocol: Protocol): nat {
    match protocol
    case AnyTls => 1443
    case TrustTunnel => 2443
    case Naive => 3443
    case Amnezia => 51820
    case _ => 443
  }

  function ProtocolName(protocol: Protocol): string {
    match protocol
    case Hysteria2 => "Hysteria 2"
    case Xhttp => "VLESS XHTTP"
    case Grpc => "VLESS gRPC"
    case AnyTls => "AnyTLS"
    case TrustTunnel => "TrustTunnel"
    case Naive => "Naive"
    case Amnezia => "AmneziaWG 3.1"
  }

  function DefaultProtocols(engine: Engine): seq<Protocol> {
    match engine
    case Hysteria => [Hysteria2]
    case Xray => [Xhttp, Grpc]
    case Mihomo => [AnyTls, TrustTunnel]
    case SingBox => [Naive]
    case AmneziaWg => [Amnezia]
  }

  predicate Singleton(engine: Engine) {
    engine.Hysteria? || engine.AmneziaWg?
  }

  /** Listeners behind the managed HTTPS edge. */
  predicate Managed(engine: Engine) {
    engine.Xray?
  }

  predicate HasPath(protocol: Protocol) {
    protocol.Xhttp? || protocol.Grpc?
  }

  /** The configured paths of the two transports that have one. */
  datatype Paths = Paths(xhttp: string, grpc: string)

  function PathOf(paths: Paths, protocol: Protocol): Option<string> {
    match protocol case Xhttp => Some(paths.xhttp) case Grpc => Some(paths.grpc) case _ => None
  }

  function DefaultPort(engine: Engine, protocol: Protocol): nat {
    if engine.Xray? then 443
    else ManifestPort(protocol) + (if DefaultEngine(protocol) != engine then IndexOf(engine) * 1000 else 0)
  }

  datatype Method = Method(
    id: string, engine: Engine, protocol: Protocol, name: string, enabled: bool, port: nat, path: Option<string>)

  // ---------------------------------------------------------------- which methods may stand together

  /** What the rules take from the platform: case folding of names, and the syntax of paths. */
  datatype Platform = Platform(fold: string -> string, wellFormed: (Protocol, string) -> bool, paths: Paths)

  predicate ShareNetwork(a: Protocol, b: Protocol) {
    Networks(a) * Networks(b) != {}
  }

  predicate Clash(a: Method, b: Method) {
    && a.enabled && b.enabled && a.port == b.port && ShareNetwork(a.protocol, b.protocol)
    && !(Managed(a.engine) && Managed(b.engine))
  }

  /** Two methods may stand together: different names, no second listener of a kind that is single,
      and no port and network used twice. */
  predicate Compatible(p: Platform, a: Method, b: Method) {
    && a.id != b.id
    && p.fold(a.name) != p.fold(b.name)
    && !(Singleton(a.engine) && a.engine == b.engine)
    && !(Managed(a.engine) && a.engine == b.engine && a.protocol == b.protocol)
    && !Clash(a, b)
  }

  predicate AllCompatible(p: Platform, methods: seq<Method>) {
    forall i, k | 0 <= i < |methods| && 0 <= k < |methods| && i != k :: Compatible(p, methods[i], methods[k])
  }

  // ---------------------------------------------------------------- the default methods

  function EngineTag(engine: Engine): string {
    match engine
    case Hysteria => "hysteria" case Xray => "xray" case Mihomo => "mihomo"
    case SingBox => "sing-box" case AmneziaWg => "amneziawg"
  }

  function ProtocolTag(protocol: Protocol): string {
    match protocol
    case Hysteria2 => "hysteria2" case Xhttp => "xhttp" case Grpc => "grpc" case AnyTls => "anytls"
    case TrustTunnel => "trusttunnel" case Naive => "naive" case Amnezia => "amneziawg"
  }

  function DefaultMethod(p: Platform, engine: Engine, protocol: Protocol): Method {
    Method(EngineTag(engine) + "-" + ProtocolTag(protocol), engine, protocol, ProtocolName(protocol), true,
           DefaultPort(engine, protocol), PathOf(p.paths, protocol))
  }

  function ServedBy(engine: Engine): seq<(Engine, Protocol)> {
    var protocols := DefaultProtocols(engine);
    seq(|protocols|, i requires 0 <= i < |protocols| => (engine, protocols[i]))
  }

  function Served(order: seq<Engine>): seq<(Engine, Protocol)> {
    if order == [] then [] else ServedBy(order[0]) + Served(order[1..])
  }

  /** One method for every protocol each engine serves by default. */
  function Defaults(p: Platform, order: seq<Engine>): seq<Method> {
    var pairs := Served(order);
    seq(|pairs|, i requires 0 <= i < |pairs| => DefaultMethod(p, pairs[i].0, pairs[i].1))
  }

  /** Case folding does not confuse the names of the manifest. */
  ghost predicate NamesApart(p: Platform) {
    forall a: Protocol, b: Protocol | a != b :: p.fold(ProtocolName(a)) != p.fold(ProtocolName(b))
  }

  /** Default methods of different protocols stand together. */
  lemma DefaultPair(p: Platform, a: Protocol, b: Protocol)
    requires NamesApart(p) && a != b
    ensures Compatible(p, DefaultMethod(p, DefaultEngine(a), a), DefaultMethod(p, DefaultEngine(b), b))
  {
    DefaultIds(a, b);
  }

  lemma DefaultIds(a: Protocol, b: Protocol)
    requires a != b
    ensures EngineTag(DefaultEngine(a)) + "-" + ProtocolTag(a) != EngineTag(DefaultEngine(b)) + "-" + ProtocolTag(b)
  {
    var x, y := EngineTag(DefaultEngine(a)) + "-" + ProtocolTag(a), EngineTag(DefaultEngine(b)) + "-" + ProtocolTag(b);
    assert |x| != |y| || x[0] != y[0];
  }

  lemma {:induction false} ServedIn(order: seq<Engine>, i: nat)
    requires i < |Served(order)|
    ensures Served(order)[i].0 in order && DefaultEngine(Served(order)[i].1) == Served(order)[i].0
  {
    var first := ServedBy(order[0]);
    if i >= |first| { ServedIn(order[1..], i - |first|); }
  }

  lemma {:induction false} ServedOnce(order: seq<Engine>, i: nat, k: nat)
    requires forall a, b | 0 <= a < b < |order| :: order[a] != order[b]
    requires i < k < |Served(order)|
    ensures Served(order)[i].1 != Served(order)[k].1
  {
    var first := ServedBy(order[0]);
    if i >= |first| {
      ServedOnce(order[1..], i - |first|, k - |first|);
    } else if k >= |first| {
      ServedIn(order, i);
      ServedIn(order[1..], k - |first|);
    }
  }

  /** The methods a new installation starts with stand together, in any order of engines. */
  lemma DefaultsCompatible(p: Platform, order: seq<Engine>)
    requires NamesApart(p) && forall a, b | 0 <= a < b < |order| :: order[a] != order[b]
    ensures AllCompatible(p, Defaults(p, order))
  {
    var methods, pairs := Defaults(p, order), Served(order);
    forall i, k | 0 <= i < |methods| && 0 <= k < |methods| && i != k ensures Compatible(p, methods[i], methods[k]) {
      ServedIn(order, i);
      ServedIn(order, k);
      if i < k { ServedOnce(order, i, k); } else { ServedOnce(order, k, i); }
      DefaultPair(p, pairs[i].1, pairs[k].1);
    }
  }
}
