/** The in-place edit as the program runs it: deletions, insertions and splices on one document,
    each addressed by a path from the root. */
module DocumentEditor {
  import opened Options
  import opened PresetTree
  import opened DocumentSync

  class Document {
    var root: Node

    constructor (parsed: Node)
      ensures root == parsed
    {
      root := parsed;
    }

    method DeleteIn(path: seq<Step>, name: string)
      requires HasPath(root, path) && GetIn(root, path).body.Mapping?
      modifies this
      ensures var n := old(GetIn(root, path));
        root == PutIn(old(root), path, WithFields(n, n.body.fields - {name}))
    {
      var n := GetIn(root, path);
      root := PutIn(root, path, WithFields(n, n.body.fields - {name}));
    }

    /** The root is always replaced. */
    method SetIn(path: seq<Step>, value: Value)
      requires HasPath(root, path)
      modifies this
      ensures root == if path == [] then Fresh(value) else PutIn(old(root), path, Replaced(old(GetIn(root, path)), value))
    {
      root := if path == [] then Fresh(value) else PutIn(root, path, Replaced(GetIn(root, path), value));
    }

    method SetKey(path: seq<Step>, name: string, value: Value)
      requires HasPath(root, path) && GetIn(root, path).body.Mapping?
      modifies this
      ensures root == PutIn(old(root), path, WithChild(old(GetIn(root, path)), Key(name), Fresh(value)))
    {
      root := PutIn(root, path, WithChild(GetIn(root, path), Key(name), Fresh(value)));
    }

    /** `sequence.items.splice(start, count, ...inserted)`, and what it cut out. */
    method Splice(path: seq<Step>, start: nat, count: nat, inserted: seq<Node>) returns (cut: seq<Node>)
      requires HasPath(root, path) && GetIn(root, path).body.Sequence?
      requires start + count <= |GetIn(root, path).body.items|
      modifies this
      ensures var n := old(GetIn(root, path));
        && cut == n.body.items[start..start + count]
        && root == PutIn(old(root), path, WithItems(n, n.body.items[..start] + inserted + n.body.items[start + count..]))
    {
      var n := GetIn(root, path);
      cut := n.body.items[start..start + count];
      root := PutIn(root, path, WithItems(n, n.body.items[..start] + inserted + n.body.items[start + count..]));
    }
  }

  function WithItems(n: Node, items: seq<Node>): Node {
    Node(n.origin, Sequence(items))
  }

  function WithFields(n: Node, fields: map<string, Node>): Node
    requires n.body.Mapping?
  {
    Node(n.origin, Mapping(n.body.keys, fields))
  }

  /** The document after the edit at a path; a document that is one scalar is replaced whole. */
  function Edited(root: Node, path: seq<Step>, n: Node, before: Value, after: Value): Node
    requires HasPath(root, path)
  {
    if path == [] && before != after && Scalar(before) && Scalar(after) then Fresh(after)
    else PutIn(root, path, Sync(n, before, after))
  }

  /** Starting from a node that reads as `before`, replaces it by the node `Sync` describes and
      touches nothing outside `path`; fails, with the document half edited, when the library throws. */
  method SyncDocument(document: Document, path: seq<Step>, before: Value, after: Value, ghost n: Node) returns (ok: bool)
    requires HasPath(document.root, path) && GetIn(document.root, path) == n && Content(n) == before
    modifies document
    ensures ok <==> Writable(n, before, after)
    ensures ok ==> document.root == Edited(old(document.root), path, n, before, after)
    decreases n, 3
  {
    PutGet(document.root, path, n);
    if before == after { return true; }
    if before.Obj? && after.Obj? {
      ok := SyncObject(document, path, before, after, n);
      return;
    }
    if before.Arr? && after.Arr? {
      ok := SyncArray(document, path, before, after, n);
      return;
    }
    document.SetIn(path, after);
    return true;
  }

  method SyncObject(document: Document, path: seq<Step>, before: Value, after: Value, ghost n: Node) returns (ok: bool)
    requires HasPath(document.root, path) && GetIn(document.root, path) == n && Content(n) == before
    requires before.Obj? && after.Obj? && before != after
    modifies document
    ensures ok <==> Writable(n, before, after)
    ensures ok ==> document.root == PutIn(old(document.root), path, Sync(n, before, after))
    decreases n, 2
  {
    // Something below has to be written, and the library does not write through an alias.
    if !GetIn(document.root, path).body.Mapping? { return false; }
    ghost var root0 := document.root;
    PutGet(root0, path, n);
    ghost var fields := DropFields(document, path, before, after, root0, n);
    var rest := after.fields.Keys;
    while rest != {}
      invariant rest <= after.fields.Keys
      invariant document.root == PutIn(root0, path, WithFields(n, fields))
      invariant Filled(n, before, after, fields, rest)
      invariant forall k | k in after.fields && k !in rest :: FieldWritable(n, before, after, k)
      decreases rest
    {
      var key :| key in rest;
      var written := SyncField(document, path, before, after, key, root0, n, fields);
      if !written { return false; }
      fields := fields[key := SyncedField(n, before, after, key)];
      rest := rest - {key};
    }
    FilledAll(n, before, after, fields);
    return true;
  }

  /** One key: set anew, or edited below. */
  method SyncField(document: Document, path: seq<Step>, before: Value, after: Value, key: string, ghost root0: Node,
                   ghost n: Node, ghost fields: map<string, Node>) returns (ok: bool)
    requires HasPath(root0, path) && n.body.Mapping? && Content(n) == before && before.Obj? && after.Obj?
    requires document.root == PutIn(root0, path, WithFields(n, fields)) && key in after.fields
    requires key in before.fields ==> key in n.body.fields && key in fields && fields[key] == n.body.fields[key]
    modifies document
    ensures ok <==> FieldWritable(n, before, after, key)
    ensures ok ==> document.root == PutIn(root0, path, WithFields(n, fields[key := SyncedField(n, before, after, key)]))
    decreases n, 1
  {
    ghost var cur := WithFields(n, fields);
    PutGet(root0, path, cur);
    ok := true;
    if key !in before.fields {
      PutPut(root0, path, cur, WithChild(cur, Key(key), Fresh(after.fields[key])));
      document.SetKey(path, key, after.fields[key]);
    } else {
      ghost var m := Sync(n.body.fields[key], before.fields[key], after.fields[key]);
      PutBelow(document.root, path, Key(key), m);
      PutPut(root0, path, cur, WithChild(cur, Key(key), m));
      ok := SyncDocument(document, path + [Key(key)], before.fields[key], after.fields[key], n.body.fields[key]);
    }
  }

  ghost predicate FieldWritable(n: Node, before: Value, after: Value, k: string)
    requires n.body.Mapping? && before.Obj? && after.Obj? && k in after.fields
  {
    k in before.fields && k in n.body.fields ==> Writable(n.body.fields[k], before.fields[k], after.fields[k])
  }

  /** The fields when some of the wanted keys are still to be set. */
  ghost predicate Filled(n: Node, before: Value, after: Value, fields: map<string, Node>, rest: set<string>)
    requires n.body.Mapping? && before.Obj? && after.Obj?
  {
    && (forall k :: k in fields <==> k in after.fields && (k in n.body.fields || k !in rest))
    && (forall k | k in fields ::
          fields[k] == (if k in rest then n.body.fields[k] else SyncedField(n, before, after, k)))
  }

  lemma FilledAll(n: Node, before: Value, after: Value, fields: map<string, Node>)
    requires n.body.Mapping? && before.Obj? && after.Obj? && before != after && Content(n) == before
    requires Filled(n, before, after, fields, {})
    ensures WithFields(n, fields) == Sync(n, before, after)
  {
    assert fields == Sync(n, before, after).body.fields;
  }

  /** Deletes the keys that are no longer wanted. */
  method DropFields(document: Document, path: seq<Step>, before: Value, after: Value, ghost root0: Node, ghost n: Node)
    returns (ghost fields: map<string, Node>)
    requires HasPath(root0, path) && document.root == root0 && GetIn(root0, path) == n
    requires Content(n) == before && before.Obj? && after.Obj? && n.body.Mapping?
    modifies document
    ensures document.root == PutIn(root0, path, WithFields(n, fields))
    ensures Filled(n, before, after, fields, after.fields.Keys)
  {
    fields := n.body.fields;
    PutGet(root0, path, n);
    var rest := before.fields.Keys;
    while rest != {}
      invariant rest <= before.fields.Keys
      invariant document.root == PutIn(root0, path, WithFields(n, fields))
      invariant forall k :: k in fields <==> k in n.body.fields && (k in rest || k in after.fields)
      invariant forall k | k in fields :: fields[k] == n.body.fields[k]
      decreases rest
    {
      var key :| key in rest;
      if key !in after.fields {
        PutPut(root0, path, WithFields(n, fields), WithFields(n, fields - {key}));
        PutGet(root0, path, WithFields(n, fields));
        document.DeleteIn(path, key);
        fields := fields - {key};
      }
      rest := rest - {key};
    }
  }

  ghost function SyncedField(n: Node, before: Value, after: Value, k: string): Node
    requires n.body.Mapping? && before.Obj? && after.Obj? && k in after.fields
  {
    if k in before.fields && k in n.body.fields
    then Sync(n.body.fields[k], before.fields[k], after.fields[k])
    else Fresh(after.fields[k])
  }

  /** Where the loop over an array stands: the items placed so far, the old nodes still to be used,
      and the values the program keeps of both. */
  ghost predicate Placing(root: Node, root0: Node, path: seq<Step>, n: Node, done: seq<Node>, nodes: seq<Node>,
                          current: seq<Value>, after: seq<Value>, key: Option<string>, goal: seq<Node>)
    requires n.body.Sequence?
  {
    && |done| <= |current| && |done| <= |after| && HasPath(root0, path)
    && (forall m | m in nodes :: m in n.body.items)
    && Contents(nodes) == current[|done|..]
    && root == PutIn(root0, path, WithItems(n, done + nodes))
    && done + SyncItems(n, nodes, Contents(nodes), after[|done|..], key) == goal
  }

  /** Whether the rest of the array can be written. */
  ghost predicate RestWritable(n: Node, nodes: seq<Node>, after: seq<Value>, target: nat, key: Option<string>)
    requires n.body.Sequence? && target <= |after| && forall m | m in nodes :: m in n.body.items
  {
    WritableItems(n, nodes, Contents(nodes), after[target..], key)
  }

  method SyncArray(document: Document, path: seq<Step>, before: Value, after: Value, ghost n: Node) returns (ok: bool)
    requires HasPath(document.root, path) && GetIn(document.root, path) == n && Content(n) == before
    requires before.Arr? && after.Arr? && before != after
    modifies document
    ensures ok <==> Writable(n, before, after)
    ensures ok ==> document.root == PutIn(old(document.root), path, Sync(n, before, after))
    decreases n, 2
  {
    PutGet(document.root, path, n);
    if !GetIn(document.root, path).body.Sequence? {
      document.SetIn(path, after);
      return true;
    }
    assert |n.body.items| == |before.items|;
    ok := SyncSequence(document, path, before, after, n);
  }

  method SyncSequence(document: Document, path: seq<Step>, before: Value, after: Value, ghost n: Node) returns (ok: bool)
    requires HasPath(document.root, path) && GetIn(document.root, path) == n && Content(n) == before
    requires before.Arr? && after.Arr? && n.body.Sequence? && |n.body.items| == |before.items|
    modifies document
    ensures ok <==> WritableItems(n, n.body.items, before.items, after.items, ArrayKey([before.items, after.items]))
    ensures ok ==> document.root == PutIn(old(document.root), path,
      WithItems(n, SyncItems(n, n.body.items, before.items, after.items, ArrayKey([before.items, after.items]))))
    decreases n, 1, 2
  {
    var key := ArrayKey([before.items, after.items]);
    StartPlacing(document.root, path, n, before, after, key);
    ok := PlaceAll(document, path, before.items, after.items, key, n,
                   SyncItems(n, n.body.items, before.items, after.items, key));
  }

  /** The loop over the wanted items. */
  method PlaceAll(document: Document, path: seq<Step>, before: seq<Value>, after: seq<Value>, key: Option<string>,
                  ghost n: Node, ghost goal: seq<Node>) returns (ok: bool)
    requires n.body.Sequence?
    requires Placing(document.root, document.root, path, n, [], n.body.items, before, after, key, goal)
    modifies document
    ensures ok <==> RestWritable(n, n.body.items, after, 0, key)
    ensures ok ==> document.root == PutIn(old(document.root), path, WithItems(n, goal))
    decreases n, 1, 1
  {
    ghost var root0 := document.root;
    var current := before;
    ghost var done, nodes: seq<Node> := [], n.body.items;
    for target := 0 to |after|
      invariant |done| == target
      invariant Placing(document.root, root0, path, n, done, nodes, current, after, key, goal)
      invariant RestWritable(n, nodes, after, target, key) <==> RestWritable(n, n.body.items, after, 0, key)
    {
      ok, current, done, nodes := PlaceItem(document, path, current, target, after, key, root0, n, done, nodes, goal);
      if !ok { return false; }
    }
    Placed(document.root, root0, path, n, done, nodes, current, after, key, goal);
    CutRest(document, path, |current|, |after|, root0, n, done, nodes);
    return true;
  }

  lemma StartPlacing(root0: Node, path: seq<Step>, n: Node, before: Value, after: Value, key: Option<string>)
    requires HasPath(root0, path) && GetIn(root0, path) == n && n.body.Sequence?
    requires Content(n) == before && before.Arr? && after.Arr?
    ensures |n.body.items| == |before.items|
    ensures Placing(root0, root0, path, n, [], n.body.items, before.items, after.items, key,
                    SyncItems(n, n.body.items, before.items, after.items, key))
    ensures RestWritable(n, n.body.items, after.items, 0, key) <==>
            WritableItems(n, n.body.items, before.items, after.items, key)
  {
    PutGet(root0, path, n);
    assert [] + n.body.items == n.body.items && WithItems(n, n.body.items) == n;
    assert Contents(n.body.items) == before.items == before.items[0..];
    assert after.items[0..] == after.items;
    var goal := SyncItems(n, n.body.items, before.items, after.items, key);
    assert [] + goal == goal;
  }

  lemma Placed(root: Node, root0: Node, path: seq<Step>, n: Node, done: seq<Node>, nodes: seq<Node>,
               current: seq<Value>, after: seq<Value>, key: Option<string>, goal: seq<Node>)
    requires n.body.Sequence? && Placing(root, root0, path, n, done, nodes, current, after, key, goal)
    requires |done| == |after|
    ensures done == goal && |nodes| == |current| - |done| && RestWritable(n, nodes, after, |after|, key)
  {
    assert after[|done|..] == [];
    assert |Contents(nodes)| == |current[|done|..]|;
  }

  /** The items nobody asked for are cut off the end. */
  method CutRest(document: Document, path: seq<Step>, count: nat, wanted: nat,
                 ghost root0: Node, ghost n: Node, ghost done: seq<Node>, ghost nodes: seq<Node>)
    requires HasPath(root0, path) && document.root == PutIn(root0, path, WithItems(n, done + nodes))
    requires wanted == |done| && count == |done| + |nodes|
    modifies document
    ensures document.root == PutIn(root0, path, WithItems(n, done))
  {
    PutGet(root0, path, WithItems(n, done + nodes));
    if count > wanted {
      PutPut(root0, path, WithItems(n, done + nodes), WithItems(n, done));
      var _ := document.Splice(path, wanted, count - wanted, []);
      assert (done + nodes)[..|done|] + [] + (done + nodes)[|done + nodes|..] == done;
    } else {
      assert done + nodes == done;
    }
  }

  /** One turn of the loop: the item wanted next is found among the old ones, or is new. */
  method PlaceItem(document: Document, path: seq<Step>, current: seq<Value>, target: nat, after: seq<Value>,
                   key: Option<string>, ghost root0: Node, ghost n: Node, ghost done: seq<Node>,
                   ghost nodes: seq<Node>, ghost goal: seq<Node>)
    returns (ok: bool, next: seq<Value>, ghost done': seq<Node>, ghost nodes': seq<Node>)
    requires n.body.Sequence? && |done| == target < |after|
    requires Placing(document.root, root0, path, n, done, nodes, current, after, key, goal)
    modifies document
    ensures ok ==> |done'| == target + 1 && Placing(document.root, root0, path, n, done', nodes', next, after, key, goal)
    ensures RestWritable(n, nodes, after, target, key) <==> ok && RestWritable(n, nodes', after, target + 1, key)
    decreases n, 1, 0
  {
    ghost var before := document.root;
    ok, next, done', nodes' := true, current, done, nodes;
    var found := target + Find(current[target..], key, IdentityOf(after[target], key));
    assert |nodes| == |current| - target by { assert |Contents(nodes)| == |current[target..]|; }
    if found == |current| {
      PlaceNew(document, path, target, after[target], root0, n, done, nodes);
      next := current[..target] + [after[target]] + current[target..];
      done' := done + [Fresh(after[target])];
      NewWritable(n, nodes, after, target, key);
      AfterNew(before, document.root, root0, path, n, done, nodes, current, after, key, goal);
    } else {
      FoundNode(nodes, current, target, found);
      FoundWritable(n, nodes, after, target, key, found - target);
      ok := PlaceFound(document, path, target, found, current[found], after[target], root0, n, done, nodes);
      if !ok { return; }
      next := current[..target] + [after[target]] + Without(current[target..], found - target);
      done' := done + [Sync(nodes[found - target], current[found], after[target])];
      nodes' := Without(nodes, found - target);
      AfterFound(before, document.root, root0, path, n, done, nodes, current, after, key, goal, found - target,
                 Sync(nodes[found - target], current[found], after[target]));
    }
  }

  lemma AfterNew(root: Node, root': Node, root0: Node, path: seq<Step>, n: Node, done: seq<Node>, nodes: seq<Node>,
                 current: seq<Value>, after: seq<Value>, key: Option<string>, goal: seq<Node>)
    requires n.body.Sequence? && Placing(root, root0, path, n, done, nodes, current, after, key, goal)
    requires |done| < |after| && |nodes| == |current| - |done|
    requires Find(current[|done|..], key, IdentityOf(after[|done|], key)) == |nodes|
    requires root' == PutIn(root0, path, WithItems(n, done + [Fresh(after[|done|])] + nodes))
    ensures Placing(root', root0, path, n, done + [Fresh(after[|done|])], nodes,
                    current[..|done|] + [after[|done|]] + current[|done|..], after, key, goal)
  {
    RestOf(after, |done|);
    SyncNew(n, nodes, Contents(nodes), done, after[|done|..], key);
    Inserted(current, |done|, after[|done|]);
  }

  lemma AfterFound(root: Node, root': Node, root0: Node, path: seq<Step>, n: Node, done: seq<Node>, nodes: seq<Node>,
                   current: seq<Value>, after: seq<Value>, key: Option<string>, goal: seq<Node>, i: nat, head: Node)
    requires n.body.Sequence? && Placing(root, root0, path, n, done, nodes, current, after, key, goal)
    requires |done| < |after| && |done| + i < |current|
    requires Find(current[|done|..], key, IdentityOf(after[|done|], key)) == i < |nodes|
    requires head == Sync(nodes[i], current[|done| + i], after[|done|])
    requires root' == PutIn(root0, path, WithItems(n, done + [head] + Without(nodes, i)))
    ensures Placing(root', root0, path, n, done + [head], Without(nodes, i),
                    current[..|done|] + [after[|done|]] + Without(current[|done|..], i), after, key, goal)
  {
    GoalFound(n, done, nodes, current, after, key, goal, i, head);
    Moved(nodes, current, |done|, |done| + i, after[|done|]);
  }

  lemma GoalFound(n: Node, done: seq<Node>, nodes: seq<Node>, current: seq<Value>, after: seq<Value>, key: Option<string>,
                  goal: seq<Node>, i: nat, head: Node)
    requires n.body.Sequence? && |done| < |after| && |done| + i < |current|
    requires (forall m | m in nodes :: m in n.body.items) && Contents(nodes) == current[|done|..]
    requires Find(current[|done|..], key, IdentityOf(after[|done|], key)) == i < |nodes|
    requires head == Sync(nodes[i], current[|done| + i], after[|done|])
    requires done + SyncItems(n, nodes, Contents(nodes), after[|done|..], key) == goal
    ensures forall m | m in Without(nodes, i) :: m in n.body.items
    ensures (done + [head]) + SyncItems(n, Without(nodes, i), Contents(Without(nodes, i)), after[|done| + 1..], key) == goal
  {
    RestOf(after, |done|);
    FoundNode(nodes, current, |done|, |done| + i);
    ReadWithout(nodes, i);
    SyncFound(n, nodes, Contents(nodes), done, after[|done|..], key, i, head);
  }

  lemma NewWritable(n: Node, nodes: seq<Node>, after: seq<Value>, target: nat, key: Option<string>)
    requires n.body.Sequence? && target < |after| && forall m | m in nodes :: m in n.body.items
    requires Find(Contents(nodes), key, IdentityOf(after[target], key)) == |nodes|
    ensures RestWritable(n, nodes, after, target, key) <==> RestWritable(n, nodes, after, target + 1, key)
  {
    RestOf(after, target);
  }

  lemma FoundWritable(n: Node, nodes: seq<Node>, after: seq<Value>, target: nat, key: Option<string>, i: nat)
    requires n.body.Sequence? && target < |after| && forall m | m in nodes :: m in n.body.items
    requires Find(Contents(nodes), key, IdentityOf(after[target], key)) == i < |nodes|
    ensures forall m | m in Without(nodes, i) :: m in n.body.items
    ensures RestWritable(n, nodes, after, target, key) <==>
            Writable(nodes[i], Content(nodes[i]), after[target]) && RestWritable(n, Without(nodes, i), after, target + 1, key)
  {
    RestOf(after, target);
    ReadWithout(nodes, i);
    assert nodes[i] in nodes;
  }

  lemma FoundNode(nodes: seq<Node>, current: seq<Value>, target: nat, found: nat)
    requires target <= found < |current| && Contents(nodes) == current[target..]
    ensures |nodes| == |current| - target && found - target < |nodes|
    ensures Content(nodes[found - target]) == current[found] && nodes[found - target] in nodes
    ensures forall m | m in Without(nodes, found - target) :: m in nodes
  {
    assert |Contents(nodes)| == |current[target..]|;
    assert Contents(nodes)[found - target] == current[target..][found - target];
  }

  lemma Joined<T>(a: seq<T>, x: T, b: seq<T>)
    ensures a + ([x] + b) == a + [x] + b
  {
  }

  lemma RestOf(after: seq<Value>, target: nat)
    requires target < |after|
    ensures after[target..] != [] && after[target..][0] == after[target] && after[target..][1..] == after[target + 1..]
  {
  }

  /** One turn of the loop, in terms of what is still to be placed: a new item, or the first old one of
      the same identity. */
  lemma SyncNew(n: Node, nodes: seq<Node>, vals: seq<Value>, done: seq<Node>, rest: seq<Value>, key: Option<string>)
    requires n.body.Sequence? && rest != [] && |nodes| == |vals| && forall m | m in nodes :: m in n.body.items
    requires Find(vals, key, IdentityOf(rest[0], key)) == |vals|
    ensures done + SyncItems(n, nodes, vals, rest, key) == done + [Fresh(rest[0])] + SyncItems(n, nodes, vals, rest[1..], key)
  {
    Joined(done, Fresh(rest[0]), SyncItems(n, nodes, vals, rest[1..], key));
  }

  lemma SyncFound(n: Node, nodes: seq<Node>, vals: seq<Value>, done: seq<Node>, rest: seq<Value>, key: Option<string>,
                  i: nat, head: Node)
    requires n.body.Sequence? && rest != [] && |nodes| == |vals| && forall m | m in nodes :: m in n.body.items
    requires i == Find(vals, key, IdentityOf(rest[0], key)) < |vals|
    requires head == Sync(nodes[i], vals[i], rest[0])
    ensures forall m | m in Without(nodes, i) :: m in n.body.items
    ensures done + SyncItems(n, nodes, vals, rest, key) ==
            done + [head] + SyncItems(n, Without(nodes, i), Without(vals, i), rest[1..], key)
  {
    assert nodes[i] in nodes;
    Joined(done, head, SyncItems(n, Without(nodes, i), Without(vals, i), rest[1..], key));
  }

  lemma Inserted(current: seq<Value>, target: nat, item: Value)
    requires target <= |current|
    ensures (current[..target] + [item] + current[target..])[target + 1..] == current[target..]
  {
  }

  lemma Moved(nodes: seq<Node>, current: seq<Value>, target: nat, found: nat, item: Value)
    requires target <= found < |current| && Contents(nodes) == current[target..]
    ensures (current[..target] + [item] + Without(current[target..], found - target))[target + 1..]
            == Contents(Without(nodes, found - target))
  {
    assert Contents(Without(nodes, found - target)) == Without(Contents(nodes), found - target);
  }

  /** No old item has the wanted identity: a new node goes in at the target position. */
  method PlaceNew(document: Document, path: seq<Step>, target: nat, item: Value,
                  ghost root0: Node, ghost n: Node, ghost done: seq<Node>, ghost nodes: seq<Node>)
    requires HasPath(root0, path) && |done| == target
    requires document.root == PutIn(root0, path, WithItems(n, done + nodes))
    modifies document
    ensures document.root == PutIn(root0, path, WithItems(n, done + [Fresh(item)] + nodes))
  {
    PutGet(root0, path, WithItems(n, done + nodes));
    PutPut(root0, path, WithItems(n, done + nodes), WithItems(n, done + [Fresh(item)] + nodes));
    var _ := document.Splice(path, target, 0, [Fresh(item)]);
    assert (done + nodes)[..target] == done && (done + nodes)[target + 0..] == nodes;
  }

  /** The old item at `found` moves to the target position, and is edited there. */
  method PlaceFound(document: Document, path: seq<Step>, target: nat, found: nat, before: Value, after: Value,
                    ghost root0: Node, ghost n: Node, ghost done: seq<Node>, ghost nodes: seq<Node>) returns (ok: bool)
    requires HasPath(root0, path) && |done| == target <= found < target + |nodes|
    requires document.root == PutIn(root0, path, WithItems(n, done + nodes))
    requires n.body.Sequence? && nodes[found - target] in n.body.items
    requires Content(nodes[found - target]) == before
    modifies document
    ensures ok <==> Writable(nodes[found - target], before, after)
    ensures ok ==> document.root == PutIn(root0, path, WithItems(n,
              done + [Sync(nodes[found - target], before, after)] + Without(nodes, found - target)))
    decreases n, 0
  {
    ghost var m, rest := nodes[found - target], Without(nodes, found - target);
    MoveItem(document, path, target, found, root0, n, done, nodes);
    ghost var cur := WithItems(n, done + [m] + rest);
    ghost var edited := Sync(m, before, after);
    PutGet(root0, path, cur);
    PutBelow(document.root, path, Index(target), edited);
    ReplaceItem(n, done, m, rest, edited);
    PutPut(root0, path, cur, WithItems(n, done + [edited] + rest));
    ok := SyncDocument(document, path + [Index(target)], before, after, m);
  }

  /** Two splices: the item is cut out where it was found and put in at the target position. */
  method MoveItem(document: Document, path: seq<Step>, target: nat, found: nat,
                  ghost root0: Node, ghost n: Node, ghost done: seq<Node>, ghost nodes: seq<Node>)
    requires HasPath(root0, path) && |done| == target <= found < target + |nodes|
    requires document.root == PutIn(root0, path, WithItems(n, done + nodes))
    modifies document
    ensures document.root == PutIn(root0, path, WithItems(n,
              done + [nodes[found - target]] + Without(nodes, found - target)))
  {
    ghost var m, rest := nodes[found - target], Without(nodes, found - target);
    if found != target {
      PutGet(root0, path, WithItems(n, done + nodes));
      PutPut(root0, path, WithItems(n, done + nodes), WithItems(n, done + rest));
      var cut := document.Splice(path, found, 1, []);
      CutOut(done, nodes, found - target);
      PutGet(root0, path, WithItems(n, done + rest));
      PutPut(root0, path, WithItems(n, done + rest), WithItems(n, done + [m] + rest));
      var _ := document.Splice(path, target, 0, cut);
      assert (done + rest)[..target] == done && (done + rest)[target + 0..] == rest;
    } else {
      assert done + nodes == done + [m] + rest;
    }
  }

  lemma ReplaceItem(n: Node, done: seq<Node>, m: Node, rest: seq<Node>, edited: Node)
    ensures WithChild(WithItems(n, done + [m] + rest), Index(|done|), edited) == WithItems(n, done + [edited] + rest)
    ensures Child(WithItems(n, done + [m] + rest), Index(|done|)) == m
  {
    assert (done + [m] + rest)[|done| := edited] == done + [edited] + rest;
  }

  lemma CutOut(done: seq<Node>, nodes: seq<Node>, f: nat)
    requires f < |nodes|
    ensures var all, found := done + nodes, |done| + f;
      && all[found..found + 1] == [nodes[f]]
      && all[..found] + [] + all[found + 1..] == done + Without(nodes, f)
  {
  }
}
