/** Writing an edited document as text: nodes are written in order, and an alias can be written only
    after the node it names. */
module DocumentWriting {
  import opened Options
  import opened PresetTree
  import opened DocumentSync
  import opened DocumentAliases

  function Anchored(n: Node, seen: set<nat>): set<nat> {
    if n.origin.Original? then seen + {n.origin.id} else seen
  }

  /** The anchors written by the end of the node, given those written before it; `None` if an alias
      comes before the node it names, when the library throws. */
  function Written(n: Node, seen: set<nat>): Option<set<nat>>
    decreases n
  {
    match n.body
    case Leaf(_) => Some(Anchored(n, seen))
    case Alias(anchor, _) => if anchor in seen then Some(seen) else None
    case Sequence(items) => WrittenItems(n, items, Anchored(n, seen))
    case Mapping(keys, _) => WrittenKeys(n, keys, Anchored(n, seen))
  }

  function WrittenItems(owner: Node, items: seq<Node>, seen: set<nat>): Option<set<nat>>
    requires owner.body.Sequence? && forall m | m in items :: m in owner.body.items
    decreases owner, |items|
  {
    if items == [] then Some(seen)
    else
      assert items[0] in items;
      var first := Written(items[0], seen);
      if first.None? then None else WrittenItems(owner, items[1..], first.value)
  }

  /** The keys a mapping was parsed with, without those that are gone. Keys set since hold leaves that
      no alias names. */
  function WrittenKeys(owner: Node, keys: seq<string>, seen: set<nat>): Option<set<nat>>
    requires owner.body.Mapping?
    decreases owner, |keys|
  {
    if keys == [] then Some(seen)
    else
      var first := if keys[0] in owner.body.fields then Written(owner.body.fields[keys[0]], seen) else Some(seen);
      if first.None? then None else WrittenKeys(owner, keys[1..], first.value)
  }

  // ---------------------------------------------------------------- told before the edit

  /** What writing the document after the edit from `before` to `after` comes to. */
  function WrittenAfter(n: Node, before: Value, after: Value, seen: set<nat>): Option<set<nat>>
    decreases n
  {
    if before == after then Written(n, seen)
    else if before.Obj? && after.Obj? && n.body.Mapping? then KeysAfter(n, before, after, n.body.keys, Anchored(n, seen))
    else if before.Arr? && after.Arr? && n.body.Sequence? && |n.body.items| == |before.items| then
      ItemsAfter(n, n.body.items, before.items, after.items, ArrayKey([before.items, after.items]), Anchored(n, seen))
    else if n.body.Leaf? && Scalar(n.body.value) && Scalar(after) then Some(Anchored(n, seen))
    else Some(seen)
  }

  function KeysAfter(n: Node, before: Value, after: Value, keys: seq<string>, seen: set<nat>): Option<set<nat>>
    requires n.body.Mapping? && before.Obj? && after.Obj?
    decreases n, |keys|
  {
    if keys == [] then Some(seen)
    else
      var k := keys[0];
      var first := if k in after.fields && k in before.fields && k in n.body.fields
                   then WrittenAfter(n.body.fields[k], before.fields[k], after.fields[k], seen) else Some(seen);
      if first.None? then None else KeysAfter(n, before, after, keys[1..], first.value)
  }

  /** The wanted items in order, each as the old item it takes, or new. */
  function ItemsAfter(owner: Node, nodes: seq<Node>, vals: seq<Value>, after: seq<Value>, key: Option<string>,
                      seen: set<nat>): Option<set<nat>>
    requires owner.body.Sequence? && |nodes| == |vals|
    requires forall m | m in nodes :: m in owner.body.items
    decreases owner, |after|
  {
    if after == [] then Some(seen)
    else
      var i := Find(vals, key, IdentityOf(after[0], key));
      if i == |vals| then ItemsAfter(owner, nodes, vals, after[1..], key, seen)
      else
        assert nodes[i] in nodes;
        var first := WrittenAfter(nodes[i], vals[i], after[0], seen);
        if first.None? then None
        else ItemsAfter(owner, Without(nodes, i), Without(vals, i), after[1..], key, first.value)
  }

  lemma {:induction false} WrittenExact(n: Node, before: Value, after: Value, seen: set<nat>)
    ensures Written(Sync(n, before, after), seen) == WrittenAfter(n, before, after, seen)
    decreases n
  {
    var r := Sync(n, before, after);
    if before == after {
    } else if before.Obj? && after.Obj? && n.body.Mapping? {
      KeysExact(n, before, after, n.body.keys, Anchored(n, seen));
    } else if before.Arr? && after.Arr? && n.body.Sequence? && |n.body.items| == |before.items| {
      ItemsExact(n, n.body.items, before.items, after.items, ArrayKey([before.items, after.items]), r, Anchored(n, seen));
    }
  }

  lemma {:induction false} KeysExact(n: Node, before: Value, after: Value, keys: seq<string>, seen: set<nat>)
    requires n.body.Mapping? && before.Obj? && after.Obj? && before != after
    ensures WrittenKeys(Sync(n, before, after), keys, seen) == KeysAfter(n, before, after, keys, seen)
    decreases n, |keys|
  {
    if keys != [] {
      var k := keys[0];
      var r := Sync(n, before, after);
      if k in after.fields && k in before.fields && k in n.body.fields {
        WrittenExact(n.body.fields[k], before.fields[k], after.fields[k], seen);
      } else if k in after.fields {
        assert r.body.fields[k] == Fresh(after.fields[k]);
      }
      var first := if k in r.body.fields then Written(r.body.fields[k], seen) else Some(seen);
      if first.Some? {
        KeysExact(n, before, after, keys[1..], first.value);
      }
    }
  }

  lemma {:induction false} ItemsExact(n: Node, nodes: seq<Node>, vals: seq<Value>, after: seq<Value>, key: Option<string>,
                                      r: Node, seen: set<nat>)
    requires n.body.Sequence? && r.body.Sequence? && |nodes| == |vals|
    requires forall m | m in nodes :: m in n.body.items
    requires forall m | m in SyncItems(n, nodes, vals, after, key) :: m in r.body.items
    ensures WrittenItems(r, SyncItems(n, nodes, vals, after, key), seen) == ItemsAfter(n, nodes, vals, after, key, seen)
    decreases n, |after|
  {
    if after != [] {
      var i := Find(vals, key, IdentityOf(after[0], key));
      var items := SyncItems(n, nodes, vals, after, key);
      if i == |vals| {
        assert items[0] == Fresh(after[0]) && items[1..] == SyncItems(n, nodes, vals, after[1..], key);
        ItemsExact(n, nodes, vals, after[1..], key, r, seen);
      } else {
        assert nodes[i] in nodes;
        assert items[0] == Sync(nodes[i], vals[i], after[0]);
        assert items[1..] == SyncItems(n, Without(nodes, i), Without(vals, i), after[1..], key);
        WrittenExact(nodes[i], vals[i], after[0], seen);
        var first := WrittenAfter(nodes[i], vals[i], after[0], seen);
        if first.Some? {
          ItemsExact(n, Without(nodes, i), Without(vals, i), after[1..], key, r, first.value);
        }
      }
    }
  }

  // ---------------------------------------------------------------- what can be written can be read

  /** Every field of a mapping is among its keys, or is a leaf set since. */
  predicate Listed(n: Node) {
    match n.body
    case Leaf(_) => true
    case Alias(_, _) => true
    case Sequence(items) => forall m | m in items :: Listed(m)
    case Mapping(keys, fields) => forall k | k in fields :: (k in keys || fields[k].body.Leaf?) && Listed(fields[k])
  }

  lemma {:induction false} SyncListed(n: Node, before: Value, after: Value)
    requires Listed(n)
    ensures Listed(Sync(n, before, after))
    decreases n
  {
    var r := Sync(n, before, after);
    if before == after {
    } else if before.Obj? && after.Obj? && n.body.Mapping? {
      forall k | k in r.body.fields ensures (k in r.body.keys || r.body.fields[k].body.Leaf?) && Listed(r.body.fields[k]) {
        if k in before.fields && k in n.body.fields {
          SyncListed(n.body.fields[k], before.fields[k], after.fields[k]);
        }
      }
    } else if before.Arr? && after.Arr? && n.body.Sequence? && |n.body.items| == |before.items| {
      ItemsListed(n, n.body.items, before.items, after.items, ArrayKey([before.items, after.items]));
    }
  }

  lemma {:induction false} ItemsListed(n: Node, nodes: seq<Node>, vals: seq<Value>, after: seq<Value>, key: Option<string>)
    requires n.body.Sequence? && |nodes| == |vals| && Listed(n)
    requires forall m | m in nodes :: m in n.body.items
    ensures forall m | m in SyncItems(n, nodes, vals, after, key) :: Listed(m)
    decreases n, |after|
  {
    if after != [] {
      var i := Find(vals, key, IdentityOf(after[0], key));
      if i == |vals| {
        ItemsListed(n, nodes, vals, after[1..], key);
      } else {
        assert nodes[i] in nodes;
        SyncListed(nodes[i], vals[i], after[0]);
        ItemsListed(n, Without(nodes, i), Without(vals, i), after[1..], key);
      }
    }
  }

  ghost predicate Holds(n: Node, id: nat) {
    exists q :: Inside(q, n) && q.origin == Original(id) && !q.body.Alias?
  }

  /** From `seen` to `now`, only anchors of nodes of `n` have been written, and those of its aliases. */
  ghost predicate Wrote(n: Node, seen: set<nat>, now: set<nat>) {
    && seen <= now
    && (forall id | id in now :: id in seen || Holds(n, id))
    && (forall a | Inside(a, n) && a.body.Alias? :: a.body.anchor in now)
  }

  lemma {:induction false} WrittenHolds(n: Node, seen: set<nat>)
    requires Written(n, seen).Some? && Listed(n)
    ensures Wrote(n, seen, Written(n, seen).value)
    decreases n
  {
    var first := Anchored(n, seen);
    assert Inside(n, n);
    match n.body
    case Leaf(_) =>
    case Alias(_, _) =>
    case Sequence(items) =>
      ItemsHold(n, items, first);
      forall a | Inside(a, n) && a.body.Alias? ensures a.body.anchor in Written(n, seen).value {
        var i :| 0 <= i < |items| && Inside(a, items[i]);
      }
    case Mapping(keys, fields) =>
      KeysHold(n, keys, first);
      forall a | Inside(a, n) && a.body.Alias? ensures a.body.anchor in Written(n, seen).value {
        var k :| k in fields && Inside(a, fields[k]);
        assert k in keys;
      }
  }

  lemma {:induction false} ItemsHold(n: Node, items: seq<Node>, seen: set<nat>)
    requires n.body.Sequence? && Listed(n) && forall m | m in items :: m in n.body.items
    requires WrittenItems(n, items, seen).Some?
    ensures var now := WrittenItems(n, items, seen).value; (
      && seen <= now && (forall id | id in now :: id in seen || Holds(n, id))
      && forall i, a | 0 <= i < |items| && Inside(a, items[i]) && a.body.Alias? :: a.body.anchor in now)
    decreases n, |items|
  {
    if items != [] {
      assert items[0] in items;
      var first := Written(items[0], seen).value;
      WrittenHolds(items[0], seen);
      var i :| 0 <= i < |n.body.items| && n.body.items[i] == items[0];
      ItemHolds(n, i);
      ItemsHold(n, items[1..], first);
      forall i, a | 0 <= i < |items| && Inside(a, items[i]) && a.body.Alias?
        ensures a.body.anchor in WrittenItems(n, items, seen).value {
        if i > 0 { assert items[i] == items[1..][i - 1]; }
      }
    }
  }

  lemma ItemHolds(n: Node, i: nat)
    requires n.body.Sequence? && i < |n.body.items|
    ensures forall id | Holds(n.body.items[i], id) :: Holds(n, id)
  {
    forall id | Holds(n.body.items[i], id) ensures Holds(n, id) {
      var q :| Inside(q, n.body.items[i]) && q.origin == Original(id) && !q.body.Alias?;
      InsideItem(q, n, i);
    }
  }

  lemma {:induction false} KeysHold(n: Node, keys: seq<string>, seen: set<nat>)
    requires n.body.Mapping? && Listed(n) && WrittenKeys(n, keys, seen).Some?
    ensures var now := WrittenKeys(n, keys, seen).value; (
      && seen <= now && (forall id | id in now :: id in seen || Holds(n, id))
      && forall k, a | k in keys && k in n.body.fields && Inside(a, n.body.fields[k]) && a.body.Alias? ::
           a.body.anchor in now)
    decreases n, |keys|
  {
    if keys != [] {
      var k := keys[0];
      assert keys == [k] + keys[1..];
      if k in n.body.fields {
        WrittenHolds(n.body.fields[k], seen);
        FieldHolds(n, k);
        KeysHold(n, keys[1..], Written(n.body.fields[k], seen).value);
      } else {
        KeysHold(n, keys[1..], seen);
      }
    }
  }

  lemma FieldHolds(n: Node, k: string)
    requires n.body.Mapping? && k in n.body.fields
    ensures forall id | Holds(n.body.fields[k], id) :: Holds(n, id)
  {
    forall id | Holds(n.body.fields[k], id) ensures Holds(n, id) {
      var q :| Inside(q, n.body.fields[k]) && q.origin == Original(id) && !q.body.Alias?;
      InsideField(q, n, k);
    }
  }

  /** A document that can be written has a node for each of its aliases. */
  lemma WrittenResolved(root: Node)
    requires Written(root, {}).Some? && Listed(root)
    ensures Resolved(root)
  {
    WrittenHolds(root, {});
    forall a | Inside(a, root) && a.body.Alias? ensures exists q :: Inside(q, root) && Names(a, q) {
      assert Holds(root, a.body.anchor);
    }
  }

  /** If the edited document can be written, every alias that stays names a node that stays, and the
      text then reads as wanted exactly when what is wanted of that node is what the alias read as. */
  lemma WrittenReadsExact(n: Node, after: Value, readings: Readings)
    requires Listed(n) && WrittenAfter(n, Content(n), after, {}).Some?
    requires Consistent(Sync(n, Content(n), after), readings)
    ensures AliasesNamed(n, after)
    ensures Read(Sync(n, Content(n), after), readings) == after <==> AnchorsWanted(n, after)
  {
    WrittenExact(n, Content(n), after, {});
    SyncListed(n, Content(n), after);
    WrittenResolved(Sync(n, Content(n), after));
    NamedExact(n, after);
    EditReadsExact(n, after, readings);
  }
}
