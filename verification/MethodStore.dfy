/** The stored list of connection methods: saving, removing and reordering keep every two methods
    compatible, and each engine runs the methods stored for it. */
module MethodStore {
  import opened Options
  import opened MethodCatalogue

  const RESERVED_PORTS := [8181, 8443, 10000, 10001, 9999, 10085, 9097, 10086]
  const RESERVED_NAMES := ["PROXY", "DIRECT", "REJECT", "GLOBAL"]

  datatype Rules = Rules(platform: Platform, upper: string -> string, installed: set<Engine>)

  // ---------------------------------------------------------------- validation

  function Peers(methods: seq<Method>, id: string): seq<Method> {
    if methods == [] then []
    else
      var before, last := Peers(methods[..|methods| - 1], id), methods[|methods| - 1];
      if last.id != id then before + [last] else before
  }

  /** What a method must satisfy by itself. */
  predicate Acceptable(r: Rules, m: Method) {
    && m.engine in r.installed && m.protocol in Capabilities(m.engine)
    && r.upper(m.name) !in RESERVED_NAMES
    && (Managed(m.engine) ==> m.port == DefaultPort(m.engine, m.protocol) && m.path == PathOf(r.platform.paths, m.protocol))
    && (!Managed(m.engine) && m.port < 1024 ==> m.engine.Hysteria? && m.port == 443)
    && m.port !in RESERVED_PORTS
    && (HasPath(m.protocol) ==> r.platform.wellFormed(m.protocol, if m.path.Some? then m.path.value else ""))
    && (m.path.Some? && m.path.value != "" ==> HasPath(m.protocol))
  }

  /** What it must satisfy beside another. */
  predicate Fits(p: Platform, m: Method, peer: Method) {
    && p.fold(peer.name) != p.fold(m.name)
    && !(Singleton(m.engine) && peer.engine == m.engine)
    && !(Managed(m.engine) && peer.engine == m.engine && peer.protocol == m.protocol)
    && !Clash(m, peer)
  }

  predicate Valid(r: Rules, methods: seq<Method>, m: Method) {
    && Acceptable(r, m)
    && forall i | 0 <= i < |methods| && methods[i].id != m.id :: Fits(r.platform, m, methods[i])
  }

  // ---------------------------------------------------------------- the three changes

  function Find(methods: seq<Method>, id: string): Option<Method> {
    if methods == [] then None else if methods[0].id == id then Some(methods[0]) else Find(methods[1..], id)
  }

  function Replace(methods: seq<Method>, m: Method): seq<Method> {
    seq(|methods|, i requires 0 <= i < |methods| => if methods[i].id == m.id then m else methods[i])
  }

  /** A new method gets a fresh id; a stored one keeps its id, engine and protocol. */
  function Saved(r: Rules, methods: seq<Method>, m: Method, replace: bool): Option<seq<Method>> {
    var previous := if replace then Find(methods, m.id) else None;
    if replace && previous.None? then None
    else if previous.Some? && (previous.value.engine != m.engine || previous.value.protocol != m.protocol) then None
    else
      var next := if replace then Replace(methods, m) else methods + [m];
      if Valid(r, next, m) then Some(next) else None
  }

  function Removed(methods: seq<Method>, id: string): Option<seq<Method>> {
    if Find(methods, id).None? then None else Some(Peers(methods, id))
  }

  /** Every id of the list exactly once. */
  predicate Names(methods: seq<Method>, ids: seq<string>) {
    && |ids| == |methods|
    && |(set i | 0 <= i < |ids| :: ids[i])| == |methods|
    && forall i | 0 <= i < |ids| :: Find(methods, ids[i]).Some?
  }

  function Ordered(methods: seq<Method>, ids: seq<string>): seq<Method>
    requires forall i | 0 <= i < |ids| :: Find(methods, ids[i]).Some?
  {
    seq(|ids|, i requires 0 <= i < |ids| => Find(methods, ids[i]).value)
  }

  function Reordered(methods: seq<Method>, ids: seq<string>): Option<seq<Method>> {
    if Names(methods, ids) then Some(Ordered(methods, ids)) else None
  }

  // ---------------------------------------------------------------- what they keep

  lemma {:induction false} FindAt(methods: seq<Method>, id: string) returns (i: nat)
    requires Find(methods, id).Some?
    ensures i < |methods| && methods[i] == Find(methods, id).value && methods[i].id == id
  {
    if methods[0].id == id { i := 0; } else {
      i := FindAt(methods[1..], id);
      i := i + 1;
    }
  }

  lemma {:induction false} FindOf(methods: seq<Method>, i: nat)
    requires i < |methods| && DistinctIds(Ids(methods))
    ensures Find(methods, methods[i].id) == Some(methods[i])
  {
    if i > 0 {
      assert Ids(methods)[0] != Ids(methods)[i];
      assert Ids(methods[1..]) == Ids(methods)[1..];
      FindOf(methods[1..], i - 1);
    }
  }

  lemma FitsCompatible(p: Platform, m: Method, peer: Method)
    requires Fits(p, m, peer) && m.id != peer.id
    ensures Compatible(p, m, peer) && Compatible(p, peer, m)
  {
    assert Networks(m.protocol) * Networks(peer.protocol) == Networks(peer.protocol) * Networks(m.protocol);
  }

  /** A save that is accepted keeps every two methods compatible; the id of a new method is new. */
  lemma SaveKeeps(r: Rules, methods: seq<Method>, m: Method, replace: bool)
    requires AllCompatible(r.platform, methods) && Saved(r, methods, m, replace).Some?
    requires !replace ==> Find(methods, m.id).None?
    ensures AllCompatible(r.platform, Saved(r, methods, m, replace).value)
  {
    var next := Saved(r, methods, m, replace).value;
    if !replace { NoFind(methods, m.id); }
    forall i, k | 0 <= i < |next| && 0 <= k < |next| && i != k ensures Compatible(r.platform, next[i], next[k]) {
      if i < |methods| && k < |methods| {
        assert Compatible(r.platform, methods[i], methods[k]);
      }
      if next[i].id == m.id && next[k].id != m.id {
        FitsCompatible(r.platform, m, next[k]);
      } else if next[k].id == m.id && next[i].id != m.id {
        FitsCompatible(r.platform, m, next[i]);
      }
    }
  }

  lemma {:induction false} NoFind(methods: seq<Method>, id: string)
    requires Find(methods, id).None?
    ensures forall i | 0 <= i < |methods| :: methods[i].id != id
  {
    if methods != [] { NoFind(methods[1..], id); }
  }

  /** What a removal leaves, in order: position by position, from the old list. */
  lemma {:induction false} PeersFrom(methods: seq<Method>, id: string, k: nat) returns (i: nat)
    requires k < |Peers(methods, id)|
    ensures k <= i < |methods| && methods[i] == Peers(methods, id)[k] && methods[i].id != id
    ensures |Peers(methods[..i], id)| == k
    decreases |methods|
  {
    var last := |methods| - 1;
    if k < |Peers(methods[..last], id)| {
      i := PeersFrom(methods[..last], id, k);
      assert methods[..last][..i] == methods[..i];
    } else {
      i := last;
      PeersShort(methods[..last], id);
    }
  }

  lemma {:induction false} PeersShort(methods: seq<Method>, id: string)
    ensures |Peers(methods, id)| <= |methods|
    decreases |methods|
  {
    if methods != [] { PeersShort(methods[..|methods| - 1], id); }
  }

  lemma RemoveKeeps(p: Platform, methods: seq<Method>, id: string)
    requires AllCompatible(p, methods)
    ensures AllCompatible(p, Peers(methods, id))
  {
    var next := Peers(methods, id);
    forall i, k | 0 <= i < |next| && 0 <= k < |next| && i != k ensures Compatible(p, next[i], next[k]) {
      var a := PeersFrom(methods, id, i);
      var b := PeersFrom(methods, id, k);
      assert a != b;
    }
  }

  // ---------------------------------------------------------------- reordering

  function Ids(methods: seq<Method>): seq<string> {
    seq(|methods|, i requires 0 <= i < |methods| => methods[i].id)
  }

  predicate DistinctIds(ids: seq<string>) {
    forall i, k | 0 <= i < k < |ids| :: ids[i] != ids[k]
  }

  lemma {:induction false} DistinctSize(ids: seq<string>)
    ensures |(set i | 0 <= i < |ids| :: ids[i])| <= |ids|
    ensures |(set i | 0 <= i < |ids| :: ids[i])| == |ids| <==> DistinctIds(ids)
    decreases |ids|
  {
    var all := set i | 0 <= i < |ids| :: ids[i];
    if ids == [] {
      assert all == {};
    } else {
      var front, last := ids[..|ids| - 1], ids[|ids| - 1];
      DistinctSize(front);
      var before := set i | 0 <= i < |front| :: front[i];
      assert all == before + {last} by {
        assert forall i | 0 <= i < |front| :: front[i] == ids[i];
        assert ids[|ids| - 1] == last;
      }
      assert DistinctIds(ids) <==> DistinctIds(front) && last !in before by {
        assert forall i | 0 <= i < |front| :: front[i] == ids[i];
      }
    }
  }

  /** An order is accepted exactly when it is a permutation of the stored ids. */
  lemma ReorderExact(methods: seq<Method>, ids: seq<string>)
    requires DistinctIds(Ids(methods))
    ensures Reordered(methods, ids).Some? <==> multiset(ids) == multiset(Ids(methods))
  {
    DistinctSize(ids);
    if Reordered(methods, ids).Some? {
      forall i | 0 <= i < |ids| ensures ids[i] in Ids(methods) {
        var k := FindAt(methods, ids[i]);
        assert Ids(methods)[k] == ids[i];
      }
      SameMembers(ids, Ids(methods));
    }
    if multiset(ids) == multiset(Ids(methods)) {
      SameDistinct(ids, Ids(methods));
      forall i | 0 <= i < |ids| ensures Find(methods, ids[i]).Some? {
        assert ids[i] in multiset(ids);
        assert ids[i] in Ids(methods);
        var k :| 0 <= k < |methods| && methods[k].id == ids[i];
        FindOf(methods, k);
      }
    }
  }

  /** As many different members of a list without repetition as it has are all of it. */
  lemma SameMembers(a: seq<string>, b: seq<string>)
    requires DistinctIds(a) && DistinctIds(b) && |a| == |b| && forall i | 0 <= i < |a| :: a[i] in b
    ensures multiset(a) == multiset(b)
  {
    var x, y := set i | 0 <= i < |a| :: a[i], set i | 0 <= i < |b| :: b[i];
    DistinctSize(a);
    DistinctSize(b);
    assert x <= y;
    SameSize(x, y);
    forall s ensures multiset(a)[s] == multiset(b)[s] {
      OneEach(a, s);
      OneEach(b, s);
      assert multiset(a)[s] == if s in x then 1 else 0;
    }
  }

  lemma SameSize(x: set<string>, y: set<string>)
    requires x <= y && |x| == |y|
    ensures x == y
  {
    assert y == x + (y - x);
    assert |y - x| == 0;
  }

  lemma {:induction false} OneEach(a: seq<string>, s: string)
    requires DistinctIds(a)
    ensures multiset(a)[s] == if s in (set i | 0 <= i < |a| :: a[i]) then 1 else 0
    decreases |a|
  {
    if a != [] {
      var front, last := a[..|a| - 1], a[|a| - 1];
      assert a == front + [last];
      assert forall i | 0 <= i < |front| :: front[i] == a[i];
      OneEach(front, s);
      assert s in (set i | 0 <= i < |a| :: a[i]) <==> s in (set i | 0 <= i < |front| :: front[i]) || s == last by {
        assert a[|a| - 1] == last;
      }
    }
  }

  lemma SameDistinct(a: seq<string>, b: seq<string>)
    requires multiset(a) == multiset(b) && DistinctIds(b)
    ensures DistinctIds(a) && |a| == |b|
  {
    assert |a| == |multiset(a)| == |multiset(b)| == |b|;
    forall i, k | 0 <= i < k < |a| ensures a[i] != a[k] {
      if a[i] == a[k] {
        TwoPlaces(a, i, k);
        OneEach(b, a[i]);
        assert false;
      }
    }
  }

  lemma TwoPlaces(a: seq<string>, i: nat, k: nat)
    requires i < k < |a| && a[i] == a[k]
    ensures multiset(a)[a[i]] >= 2
  {
    assert a == a[..k] + [a[k]] + a[k + 1..];
    assert a[i] in a[..k];
  }

  lemma CompatibleIds(p: Platform, methods: seq<Method>)
    requires AllCompatible(p, methods)
    ensures DistinctIds(Ids(methods))
  {
    forall i, k | 0 <= i < k < |methods| ensures Ids(methods)[i] != Ids(methods)[k] {
      assert Compatible(p, methods[i], methods[k]);
    }
  }

  /** A reorder that is accepted moves the methods and changes none of them. */
  lemma ReorderKeeps(p: Platform, methods: seq<Method>, ids: seq<string>)
    requires AllCompatible(p, methods) && Reordered(methods, ids).Some?
    ensures AllCompatible(p, Reordered(methods, ids).value) && Ids(Reordered(methods, ids).value) == ids
    ensures forall m :: m in Reordered(methods, ids).value <==> m in methods
  {
    var next := Reordered(methods, ids).value;
    CompatibleIds(p, methods);
    ReorderExact(methods, ids);
    DistinctSize(ids);
    forall i | 0 <= i < |ids| ensures next[i].id == ids[i] && next[i] in methods {
      var k := FindAt(methods, ids[i]);
    }
    forall i, k | 0 <= i < |next| && 0 <= k < |next| && i != k ensures Compatible(p, next[i], next[k]) {
      var a := FindAt(methods, ids[i]);
      var b := FindAt(methods, ids[k]);
      assert a != b;
    }
    forall m | m in methods ensures m in next {
      var k :| 0 <= k < |methods| && methods[k] == m;
      assert Ids(methods)[k] in multiset(Ids(methods));
      assert m.id in ids;
      var i :| 0 <= i < |ids| && ids[i] == m.id;
      CompatibleFind(p, methods, k);
      assert next[i] == m;
    }
  }

  lemma CompatibleFind(p: Platform, methods: seq<Method>, k: nat)
    requires AllCompatible(p, methods) && k < |methods|
    ensures Find(methods, methods[k].id) == Some(methods[k])
  {
    CompatibleIds(p, methods);
    FindOf(methods, k);
  }

  // ---------------------------------------------------------------- every run

  datatype Change =
    | Save(rules: Rules, method_: Method, replace: bool)
    | Remove(id: string)
    | Reorder(ids: seq<string>)

  /** A change that is refused leaves the list alone. */
  function Changed(methods: seq<Method>, c: Change): seq<Method> {
    var next := match c
      case Save(rules, m, replace) => Saved(rules, methods, m, replace)
      case Remove(id) => Removed(methods, id)
      case Reorder(ids) => Reordered(methods, ids);
    if next.Some? then next.value else methods
  }

  function Run(methods: seq<Method>, changes: seq<Change>): seq<Method>
    decreases |changes|
  {
    if changes == [] then methods
    else Changed(Run(methods, changes[..|changes| - 1]), changes[|changes| - 1])
  }

  /** New methods have new ids, and the platform does not change. */
  ghost predicate Sound(p: Platform, methods: seq<Method>, changes: seq<Change>)
    decreases |changes|
  {
    changes == [] ||
    (var front, last := changes[..|changes| - 1], changes[|changes| - 1];
     && Sound(p, methods, front)
     && (last.Save? ==> last.rules.platform == p && (!last.replace ==> Find(Run(methods, front), last.method_.id).None?)))
  }

  /** Every run of saves, removals and reorders, accepted or refused, keeps all methods compatible. */
  lemma {:induction false} RunKeeps(p: Platform, methods: seq<Method>, changes: seq<Change>)
    requires AllCompatible(p, methods) && Sound(p, methods, changes)
    ensures AllCompatible(p, Run(methods, changes))
    decreases |changes|
  {
    if changes != [] {
      var front, last := changes[..|changes| - 1], changes[|changes| - 1];
      RunKeeps(p, methods, front);
      var before := Run(methods, front);
      match last
      case Save(rules, m, replace) => if Saved(rules, before, m, replace).Some? { SaveKeeps(rules, before, m, replace); }
      case Remove(id) => RemoveKeeps(p, before, id);
      case Reorder(ids) => if Reordered(before, ids).Some? { ReorderKeeps(p, before, ids); }
    }
  }
}
