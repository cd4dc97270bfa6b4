/** A document as the list of its nodes in the order in which they are written, and when that can be
    written. */
module DocumentOrder {
  import opened Options
  import opened DocumentSync
  import opened DocumentWriting

  /** Every node before the nodes in it, these in their order; under a key that is not there is none. */
  function Nodes(n: Node): seq<Node>
    decreases n
  {
    match n.body
    case Leaf(_) => [n]
    case Alias(_, _) => [n]
    case Sequence(items) => [n] + NodesOfItems(n, items)
    case Mapping(keys, _) => [n] + NodesOfKeys(n, keys)
  }

  function NodesOfItems(owner: Node, items: seq<Node>): seq<Node>
    requires owner.body.Sequence? && forall m | m in items :: m in owner.body.items
    decreases owner, |items|
  {
    if items == [] then []
    else
      assert items[0] in items;
      Nodes(items[0]) + NodesOfItems(owner, items[1..])
  }

  function NodesOfKeys(owner: Node, keys: seq<string>): seq<Node>
    requires owner.body.Mapping?
    decreases owner, |keys|
  {
    if keys == [] then []
    else (if keys[0] in owner.body.fields then Nodes(owner.body.fields[keys[0]]) else []) + NodesOfKeys(owner, keys[1..])
  }

  /** The anchors met so far, node after node. */
  function Passed(nodes: seq<Node>, seen: set<nat>): Option<set<nat>> {
    if nodes == [] then Some(seen)
    else if nodes[0].body.Alias? then if nodes[0].body.anchor in seen then Passed(nodes[1..], seen) else None
    else Passed(nodes[1..], Anchored(nodes[0], seen))
  }

  lemma {:induction false} PassedBoth(a: seq<Node>, b: seq<Node>, seen: set<nat>)
    ensures Passed(a + b, seen) == if Passed(a, seen).None? then None else Passed(b, Passed(a, seen).value)
    decreases |a|
  {
    if a == [] {
      assert a + b == b;
    } else {
      assert (a + b)[1..] == a[1..] + b;
      PassedBoth(a[1..], b, if a[0].body.Alias? then seen else Anchored(a[0], seen));
    }
  }

  lemma PassedOwner(n: Node, rest: seq<Node>, seen: set<nat>)
    requires !n.body.Alias?
    ensures Passed([n] + rest, seen) == Passed(rest, Anchored(n, seen))
  {
    assert ([n] + rest)[1..] == rest;
  }

  lemma {:induction false} WrittenPassed(n: Node, seen: set<nat>)
    ensures Written(n, seen) == Passed(Nodes(n), seen)
    decreases n
  {
    match n.body
    case Leaf(_) => assert Passed([], Anchored(n, seen)) == Some(Anchored(n, seen));
    case Alias(_, _) => assert Passed([], seen) == Some(seen);
    case Sequence(items) =>
      ItemsPassed(n, items, Anchored(n, seen));
      PassedOwner(n, NodesOfItems(n, items), seen);
    case Mapping(keys, _) =>
      KeysPassed(n, keys, Anchored(n, seen));
      PassedOwner(n, NodesOfKeys(n, keys), seen);
  }

  lemma {:induction false} ItemsPassed(owner: Node, items: seq<Node>, seen: set<nat>)
    requires owner.body.Sequence? && forall m | m in items :: m in owner.body.items
    ensures WrittenItems(owner, items, seen) == Passed(NodesOfItems(owner, items), seen)
    decreases owner, |items|
  {
    if items != [] {
      assert items[0] in items;
      WrittenPassed(items[0], seen);
      PassedBoth(Nodes(items[0]), NodesOfItems(owner, items[1..]), seen);
      var first := Written(items[0], seen);
      if first.Some? { ItemsPassed(owner, items[1..], first.value); }
    }
  }

  lemma {:induction false} KeysPassed(owner: Node, keys: seq<string>, seen: set<nat>)
    requires owner.body.Mapping?
    ensures WrittenKeys(owner, keys, seen) == Passed(NodesOfKeys(owner, keys), seen)
    decreases owner, |keys|
  {
    if keys != [] {
      var here := if keys[0] in owner.body.fields then Nodes(owner.body.fields[keys[0]]) else [];
      if keys[0] in owner.body.fields { WrittenPassed(owner.body.fields[keys[0]], seen); }
      PassedBoth(here, NodesOfKeys(owner, keys[1..]), seen);
      var first := Passed(here, seen);
      if first.Some? { KeysPassed(owner, keys[1..], first.value); }
    }
  }

  /** The alias at a place comes after the node it names, or what it names was there before. */
  ghost predicate Resolves(nodes: seq<Node>, seen: set<nat>, i: nat)
    requires i < |nodes| && nodes[i].body.Alias?
  {
    || nodes[i].body.anchor in seen
    || exists k :: 0 <= k < i && !nodes[k].body.Alias? && nodes[k].origin == Original(nodes[i].body.anchor)
  }

  lemma {:induction false} PassedExact(nodes: seq<Node>, seen: set<nat>)
    ensures Passed(nodes, seen).Some? <==> forall i | 0 <= i < |nodes| && nodes[i].body.Alias? :: Resolves(nodes, seen, i)
    decreases |nodes|
  {
    if nodes != [] {
      var rest := nodes[1..];
      var next := if nodes[0].body.Alias? then seen else Anchored(nodes[0], seen);
      PassedExact(rest, next);
      if nodes[0].body.Alias? { assert Resolves(nodes, seen, 0) <==> nodes[0].body.anchor in seen; }
      forall i | 0 <= i < |rest| && rest[i].body.Alias?
        ensures Resolves(rest, next, i) <==> Resolves(nodes, seen, i + 1) {
        ResolvesLater(nodes, seen, i);
      }
      assert forall i | 0 < i < |nodes| :: nodes[i] == rest[i - 1];
    }
  }

  lemma ResolvesLater(nodes: seq<Node>, seen: set<nat>, i: nat)
    requires nodes != [] && i < |nodes| - 1 && nodes[i + 1].body.Alias?
    ensures Resolves(nodes[1..], if nodes[0].body.Alias? then seen else Anchored(nodes[0], seen), i) <==>
            Resolves(nodes, seen, i + 1)
  {
    var rest := nodes[1..];
    if k :| 0 <= k < i + 1 && !nodes[k].body.Alias? && nodes[k].origin == Original(nodes[i + 1].body.anchor) {
      if k > 0 { assert rest[k - 1] == nodes[k]; }
    }
    if k :| 0 <= k < i && !rest[k].body.Alias? && rest[k].origin == Original(rest[i].body.anchor) {
      assert nodes[k + 1] == rest[k];
    }
  }

  /** A document can be written if and only if each of its aliases comes, in that order, after the node
      it names. */
  lemma WrittenInOrder(n: Node)
    ensures Written(n, {}).Some? <==>
            forall i | 0 <= i < |Nodes(n)| && Nodes(n)[i].body.Alias? ::
              exists k :: 0 <= k < i && !Nodes(n)[k].body.Alias? && Nodes(n)[k].origin == Original(Nodes(n)[i].body.anchor)
  {
    WrittenPassed(n, {});
    PassedExact(Nodes(n), {});
  }
}
