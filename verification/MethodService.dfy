/** The service over the stored methods: a change is applied to its engine before it is stored, and
    taken back if it cannot be; and the search for a free port to suggest. */
module MethodService {
  import opened Options
  import opened MethodCatalogue
  import opened MethodStore

  // ---------------------------------------------------------------- a free port

  predicate Taken(items: seq<Method>, protocol: Protocol, port: nat) {
    || port in RESERVED_PORTS
    || exists i :: 0 <= i < |items| && items[i].port == port && ShareNetwork(items[i].protocol, protocol)
  }

  /** Above every port in use. */
  function Ceiling(items: seq<Method>): (c: nat)
    ensures c > 10086 && forall i | 0 <= i < |items| :: items[i].port < c
  {
    if items == [] then 10087
    else
      var rest := Ceiling(items[..|items| - 1]);
      if items[|items| - 1].port < rest then rest else items[|items| - 1].port + 1
  }

  lemma TakenBelow(items: seq<Method>, protocol: Protocol, port: nat)
    requires Taken(items, protocol, port)
    ensures port < Ceiling(items)
  {
  }

  /** The least free port from the default on. The ports in use bound the search. */
  method SuggestPort(items: seq<Method>, engine: Engine, protocol: Protocol) returns (port: nat)
    requires !Managed(engine) && !Singleton(engine)
    ensures port >= DefaultPort(engine, protocol) && !Taken(items, protocol, port)
    ensures forall p | DefaultPort(engine, protocol) <= p < port :: Taken(items, protocol, p)
  {
    port := DefaultPort(engine, protocol);
    while Taken(items, protocol, port)
      invariant port >= DefaultPort(engine, protocol)
      invariant forall p | DefaultPort(engine, protocol) <= p < port :: Taken(items, protocol, p)
      decreases Ceiling(items) - port
    {
      TakenBelow(items, protocol, port);
      port := port + 1;
    }
  }

  /** The settings suggested for an engine that may have several listeners. */
  predicate Suggested(r: Rules, items: seq<Method>, m: Method) {
    && m.engine in r.installed && m.protocol in Capabilities(m.engine) && !Managed(m.engine) && !Singleton(m.engine)
    && m.port >= DefaultPort(m.engine, m.protocol) && !Taken(items, m.protocol, m.port)
    && m.path == PathOf(r.platform.paths, m.protocol)
  }

  lemma DefaultPortsOpen(engine: Engine, protocol: Protocol)
    requires protocol in Capabilities(engine) && !Managed(engine) && !Singleton(engine)
    ensures DefaultPort(engine, protocol) >= 1024
  {
  }

  lemma SuggestionStands(r: Rules, items: seq<Method>, m: Method)
    requires Suggested(r, items, m)
    requires HasPath(m.protocol) ==> r.platform.wellFormed(m.protocol, PathOf(r.platform.paths, m.protocol).value)
    ensures Acceptable(r, m) <==> r.upper(m.name) !in RESERVED_NAMES
  {
    DefaultPortsOpen(m.engine, m.protocol);
  }

  lemma SuggestionFits(r: Rules, items: seq<Method>, m: Method, i: nat)
    requires Suggested(r, items, m) && i < |items|
    ensures Fits(r.platform, m, items[i]) <==> r.platform.fold(items[i].name) != r.platform.fold(m.name)
  {
    SameNetworks(m.protocol, items[i].protocol);
  }

  /** A new method with the suggested settings is accepted exactly when its name is: the suggestion is
      never what validation objects to. A port above 65535 would be refused before, by the schema. */
  lemma SuggestionAccepted(r: Rules, items: seq<Method>, m: Method)
    requires Suggested(r, items, m) && Find(items, m.id).None?
    requires HasPath(m.protocol) ==> r.platform.wellFormed(m.protocol, PathOf(r.platform.paths, m.protocol).value)
    ensures Saved(r, items, m, false).Some? <==>
            && r.upper(m.name) !in RESERVED_NAMES
            && forall i | 0 <= i < |items| :: r.platform.fold(items[i].name) != r.platform.fold(m.name)
  {
    SuggestionStands(r, items, m);
    NoFind(items, m.id);
    forall i | 0 <= i < |items|
      ensures Fits(r.platform, m, items[i]) <==> r.platform.fold(items[i].name) != r.platform.fold(m.name) {
      SuggestionFits(r, items, m, i);
    }
    ValidBeside(r, items, m);
  }

  lemma ValidBeside(r: Rules, items: seq<Method>, m: Method)
    requires forall i | 0 <= i < |items| :: items[i].id != m.id
    ensures Valid(r, items + [m], m) <==>
            Acceptable(r, m) && forall i | 0 <= i < |items| :: Fits(r.platform, m, items[i])
  {
    var next := items + [m];
    assert next[|items|] == m;
    assert forall i | 0 <= i < |items| :: next[i] == items[i];
  }

  lemma SameNetworks(a: Protocol, b: Protocol)
    ensures ShareNetwork(a, b) == ShareNetwork(b, a)
  {
    assert Networks(a) * Networks(b) == Networks(b) * Networks(a);
  }

  // ---------------------------------------------------------------- applying and storing

  /** What happens outside: whether the call with the new list succeeds, whether the list can be stored,
      whether the call with the old list succeeds, and whether a call that failed, of which there is
      at most one, took effect all the same. */
  datatype Fate = Fate(applies: bool, stores: bool, restores: bool, lands: bool) {
    /** The engine ends up with the list that is stored. */
    predicate Settles() {
      if applies then stores || restores || lands else !lands
    }
  }

  function Own(methods: seq<Method>, engine: Engine): set<Method> {
    set i | 0 <= i < |methods| && methods[i].engine == engine :: methods[i]
  }

  /** Each engine runs its own methods as they are stored. */
  ghost predicate InStep(stored: seq<Method>, running: map<Engine, seq<Method>>) {
    forall e | e in running :: Own(running[e], e) == Own(stored, e)
  }

  class Service {
    var stored: seq<Method>
    var running: map<Engine, seq<Method>>

    constructor (methods: seq<Method>, engines: set<Engine>)
      ensures stored == methods && InStep(stored, running)
    {
      stored := methods;
      running := map e | e in engines :: methods;
    }

    method Commit(next: seq<Method>, engine: Option<Engine>, fate: Fate) returns (ok: bool)
      modifies this
      ensures ok == ((engine.Some? ==> fate.applies) && fate.stores)
      ensures stored == if ok then next else old(stored)
      ensures running ==
              if engine.None? || (!fate.applies && !fate.lands) then old(running)
              else if fate.Settles() then old(running)[engine.value := stored]
              else old(running)[engine.value := next]
    {
      var before := stored;
      if engine.Some? {
        if fate.applies || fate.lands { running := running[engine.value := next]; }
        if !fate.applies { return false; }
      }
      if fate.stores {
        stored := next;
        return true;
      }
      if engine.Some? && (fate.restores || fate.lands) {
        running := running[engine.value := before];
      }
      ok := false;
    }

    /** Engines stay in step exactly when the engine ends up with the stored list, or the change was not
        about its methods after all. */
    method Save(r: Rules, m: Method, replace: bool, fate: Fate) returns (ok: bool)
      requires AllCompatible(r.platform, stored) && (!replace ==> Find(stored, m.id).None?)
      modifies this
      ensures AllCompatible(r.platform, stored)
      ensures var next := Saved(r, old(stored), m, replace);
        && ok == (next.Some? && fate.applies && fate.stores)
        && stored == if ok then next.value else old(stored)
      ensures var next := Saved(r, old(stored), m, replace);
        old(InStep(stored, running)) ==>
          (InStep(stored, running) <==>
             next.None? || fate.Settles() || Own(next.value, m.engine) == Own(old(stored), m.engine))
    {
      var next := Saved(r, stored, m, replace);
      if next.None? { return false; }
      SaveKeeps(r, stored, m, replace);
      forall e | e != m.engine ensures Own(next.value, e) == Own(stored, e) { SaveOthers(r, stored, m, replace, e); }
      ok := Commit(next.value, Some(m.engine), fate);
    }

    method Remove(p: Platform, id: string, fate: Fate) returns (ok: bool)
      requires AllCompatible(p, stored)
      modifies this
      ensures AllCompatible(p, stored)
      ensures var next := Removed(old(stored), id);
        && ok == (next.Some? && fate.applies && fate.stores)
        && stored == if ok then next.value else old(stored)
      ensures old(InStep(stored, running)) ==>
        (InStep(stored, running) <==> Removed(old(stored), id).None? || fate.Settles())
    {
      var m := Find(stored, id);
      if m.None? { return false; }
      RemoveKeeps(p, stored, id);
      forall e | e != m.value.engine ensures Own(Peers(stored, id), e) == Own(stored, e) { RemoveOthers(p, stored, id, e); }
      RemovedDiffers(stored, id);
      ok := Commit(Peers(stored, id), Some(m.value.engine), fate);
    }

    /** No engine is told of a new order. */
    method Reorder(p: Platform, ids: seq<string>, fate: Fate) returns (ok: bool)
      requires AllCompatible(p, stored)
      modifies this
      ensures AllCompatible(p, stored)
      ensures var next := Reordered(old(stored), ids);
        && ok == (next.Some? && fate.stores)
        && stored == if ok then next.value else old(stored)
      ensures old(InStep(stored, running)) ==> InStep(stored, running)
    {
      var next := Reordered(stored, ids);
      if next.None? { return false; }
      ReorderKeeps(p, stored, ids);
      SameOwn(stored, next.value);
      ok := Commit(next.value, None, fate);
    }
  }

  lemma SameOwn(a: seq<Method>, b: seq<Method>)
    requires forall m :: m in a <==> m in b
    ensures forall e :: Own(a, e) == Own(b, e)
  {
    forall e ensures Own(a, e) == Own(b, e) {
      forall m ensures m in Own(a, e) <==> m in Own(b, e) {
        OwnIn(a, e, m);
        OwnIn(b, e, m);
      }
    }
  }

  lemma OwnIn(methods: seq<Method>, e: Engine, m: Method)
    ensures m in Own(methods, e) <==> m in methods && m.engine == e
  {
  }

  /** A save touches only the methods of its engine. */
  lemma SaveOthers(r: Rules, methods: seq<Method>, m: Method, replace: bool, e: Engine)
    requires AllCompatible(r.platform, methods) && Saved(r, methods, m, replace).Some? && e != m.engine
    ensures Own(Saved(r, methods, m, replace).value, e) == Own(methods, e)
  {
    var next := Saved(r, methods, m, replace).value;
    forall x ensures x in Own(next, e) <==> x in Own(methods, e) {
      if replace {
        if x.engine == e { ReplaceOthers(r, methods, m, x); }
      } else {
        assert next == methods + [m];
      }
      OwnIn(next, e, x);
      OwnIn(methods, e, x);
    }
  }

  lemma ReplaceOthers(r: Rules, methods: seq<Method>, m: Method, x: Method)
    requires AllCompatible(r.platform, methods) && Saved(r, methods, m, true).Some? && x.engine != m.engine
    ensures x in Replace(methods, m) <==> x in methods
  {
    var at := FindAt(methods, m.id);
    var next := Replace(methods, m);
    if x in methods {
      var i :| 0 <= i < |methods| && methods[i] == x;
      assert i != at ==> Compatible(r.platform, methods[i], methods[at]);
      assert next[i] == x;
    }
    if x in next {
      var i :| 0 <= i < |next| && next[i] == x;
      assert methods[i] == x;
    }
  }

  lemma RemoveOthers(p: Platform, methods: seq<Method>, id: string, e: Engine)
    requires AllCompatible(p, methods) && Find(methods, id).Some? && Find(methods, id).value.engine != e
    ensures Own(Peers(methods, id), e) == Own(methods, e)
  {
    var at := FindAt(methods, id);
    forall x ensures x in Own(Peers(methods, id), e) <==> x in Own(methods, e) {
      OwnIn(Peers(methods, id), e, x);
      OwnIn(methods, e, x);
      PeersIn(methods, id, x);
      if x in methods && x.engine == e {
        var i :| 0 <= i < |methods| && methods[i] == x;
        assert i != at ==> Compatible(p, methods[i], methods[at]);
      }
    }
  }

  /** A removal is always about its engine's methods. */
  lemma RemovedDiffers(methods: seq<Method>, id: string)
    requires Find(methods, id).Some?
    ensures var e := Find(methods, id).value.engine; Own(Peers(methods, id), e) != Own(methods, e)
  {
    var m := Find(methods, id).value;
    var at := FindAt(methods, id);
    OwnIn(methods, m.engine, m);
    OwnIn(Peers(methods, id), m.engine, m);
    PeersIn(methods, id, m);
  }

  lemma {:induction false} PeersIn(methods: seq<Method>, id: string, x: Method)
    ensures x in Peers(methods, id) <==> x in methods && x.id != id
    decreases |methods|
  {
    if methods != [] {
      PeersIn(methods[..|methods| - 1], id, x);
      assert methods == methods[..|methods| - 1] + [methods[|methods| - 1]];
    }
  }
}
