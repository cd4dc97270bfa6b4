/** Rewriting a parsed document in place until it reads as the merged template, keeping the nodes
    (with their comments and layout) of everything that survives. */
module DocumentSync {
  import opened Options
  import opened PresetTree

  /** Where a node comes from: the parsed text, or this edit. */
  datatype Origin = Original(id: nat) | Created

  /** A document node. A leaf holds a plain value: a scalar, or a value set whole. An alias names the
      parsed node it stands for, and remembers what it read as when the document was parsed. A mapping
      lists the keys it was parsed with, in order; some may be gone, and keys set since come after. */
  datatype Node = Node(origin: Origin, body: Body)
  datatype Body =
    | Leaf(value: Value)
    | Alias(anchor: nat, value: Value)
    | Sequence(items: seq<Node>)
    | Mapping(keys: seq<string>, fields: map<string, Node>)

  /** The value a node reads as, with every alias read as when the document was parsed. What aliases
      read as after an edit is told in `DocumentAliases`. */
  function Content(n: Node): Value {
    match n.body
    case Leaf(v) => v
    case Alias(_, v) => v
    case Sequence(items) => Arr(seq(|items|, i requires 0 <= i < |items| => Content(items[i])))
    case Mapping(_, fields) => Obj(map k | k in fields :: Content(fields[k]))
  }

  function Fresh(v: Value): Node {
    Node(Created, Leaf(v))
  }

  predicate Scalar(v: Value) {
    !v.Obj? && !v.Arr?
  }

  /** What stands at a place where a value is set: a scalar node given another scalar stays the node it
      is, with its anchor, and any other node is replaced. */
  function Replaced(n: Node, v: Value): Node {
    if n.body.Leaf? && Scalar(n.body.value) && Scalar(v) then Node(n.origin, Leaf(v)) else Fresh(v)
  }

  /** What pairs an item of the old array with one of the new: its id, or its whole value. */
  datatype Identity = ById(id: string) | ByValue(value: Value)

  function IdentityOf(v: Value, key: Option<string>): Identity {
    if key.Some? && v.Obj? then ById(IdOf(v, key.value)) else ByValue(v)
  }

  /** The first position that holds the identity, or the length. */
  function Find(vals: seq<Value>, key: Option<string>, wanted: Identity): (i: nat)
    ensures i <= |vals|
    ensures i < |vals| ==> IdentityOf(vals[i], key) == wanted
    ensures forall j | 0 <= j < i :: IdentityOf(vals[j], key) != wanted
  {
    if vals == [] || IdentityOf(vals[0], key) == wanted then 0 else 1 + Find(vals[1..], key, wanted)
  }

  function Without<T>(s: seq<T>, i: nat): seq<T>
    requires i < |s|
  {
    s[..i] + s[i + 1..]
  }

  /** The node after the edit from `before` to `after`. */
  function Sync(n: Node, before: Value, after: Value): Node
    decreases n
  {
    if before == after then n
    else if before.Obj? && after.Obj? && n.body.Mapping? then
      Node(n.origin, Mapping(n.body.keys, map k | k in after.fields ::
        if k in before.fields && k in n.body.fields
        then Sync(n.body.fields[k], before.fields[k], after.fields[k])
        else Fresh(after.fields[k])))
    else if before.Arr? && after.Arr? && n.body.Sequence? && |n.body.items| == |before.items| then
      Node(n.origin, Sequence(SyncItems(n, n.body.items, before.items, after.items,
                                        ArrayKey([before.items, after.items]))))
    else Replaced(n, after)
  }

  /** Each wanted item takes the first old item of the same identity not taken yet. */
  function SyncItems(owner: Node, nodes: seq<Node>, vals: seq<Value>, after: seq<Value>, key: Option<string>): (r: seq<Node>)
    requires owner.body.Sequence? && |nodes| == |vals|
    requires forall m | m in nodes :: m in owner.body.items
    ensures |r| == |after|
    decreases owner, |after|
  {
    if after == [] then []
    else
      var i := Find(vals, key, IdentityOf(after[0], key));
      if i == |vals| then [Fresh(after[0])] + SyncItems(owner, nodes, vals, after[1..], key)
      else
        assert nodes[i] in nodes;
        [Sync(nodes[i], vals[i], after[0])] + SyncItems(owner, Without(nodes, i), Without(vals, i), after[1..], key)
  }

  /** The edit from `before` to `after` can be made: an object is changed field by field only where
      the node is a mapping, so what an alias to a mapping reads as must not change. */
  predicate Writable(n: Node, before: Value, after: Value)
    decreases n
  {
    if before == after then true
    else if before.Obj? && after.Obj? then
      && n.body.Mapping?
      && forall k | k in after.fields && k in before.fields && k in n.body.fields ::
           Writable(n.body.fields[k], before.fields[k], after.fields[k])
    else if before.Arr? && after.Arr? && n.body.Sequence? && |n.body.items| == |before.items| then
      WritableItems(n, n.body.items, before.items, after.items, ArrayKey([before.items, after.items]))
    else true
  }

  predicate WritableItems(owner: Node, nodes: seq<Node>, vals: seq<Value>, after: seq<Value>, key: Option<string>)
    requires owner.body.Sequence? && |nodes| == |vals|
    requires forall m | m in nodes :: m in owner.body.items
    decreases owner, |after|
  {
    after == [] ||
    (var i := Find(vals, key, IdentityOf(after[0], key));
     if i == |vals| then WritableItems(owner, nodes, vals, after[1..], key)
     else
       assert nodes[i] in nodes;
       && Writable(nodes[i], vals[i], after[0])
       && WritableItems(owner, Without(nodes, i), Without(vals, i), after[1..], key))
  }

  function Contents(nodes: seq<Node>): (r: seq<Value>)
    ensures |r| == |nodes|
  {
    seq(|nodes|, i requires 0 <= i < |nodes| => Content(nodes[i]))
  }

  /** The edited document reads as the wanted value. */
  lemma {:induction false} SyncReads(n: Node, after: Value)
    ensures Content(Sync(n, Content(n), after)) == after
    decreases n
  {
    var before := Content(n);
    if before != after && after.Obj? && n.body.Mapping? {
      var r := Sync(n, before, after);
      forall k | k in after.fields ensures Content(r.body.fields[k]) == after.fields[k] {
        if k in before.fields {
          SyncReads(n.body.fields[k], after.fields[k]);
        }
      }
      assert Content(r).fields == after.fields;
    } else if before != after && after.Arr? && n.body.Sequence? {
      var key := ArrayKey([before.items, after.items]);
      SyncItemsRead(n, n.body.items, after.items, key);
      assert Contents(n.body.items) == before.items;
    }
  }

  /** The edit leaves a document as it is exactly when it already reads as wanted. */
  lemma SyncStays(n: Node, after: Value)
    ensures Sync(n, Content(n), after) == n <==> Content(n) == after
  {
    SyncReads(n, after);
  }

  lemma {:induction false} SyncItemsRead(owner: Node, nodes: seq<Node>, after: seq<Value>, key: Option<string>)
    requires owner.body.Sequence?
    requires forall m | m in nodes :: m in owner.body.items
    ensures Contents(SyncItems(owner, nodes, Contents(nodes), after, key)) == after
    decreases owner, |after|
  {
    if after != [] {
      var vals := Contents(nodes);
      var i := Find(vals, key, IdentityOf(after[0], key));
      if i == |vals| {
        SyncItemsRead(owner, nodes, after[1..], key);
        ReadCons(Fresh(after[0]), SyncItems(owner, nodes, vals, after[1..], key), after);
      } else {
        assert nodes[i] in nodes;
        SyncReads(nodes[i], after[0]);
        ReadWithout(nodes, i);
        SyncItemsRead(owner, Without(nodes, i), after[1..], key);
        ReadCons(Sync(nodes[i], vals[i], after[0]),
                 SyncItems(owner, Without(nodes, i), Without(vals, i), after[1..], key), after);
      }
    }
  }

  lemma {:induction false} ReadCons(head: Node, rest: seq<Node>, after: seq<Value>)
    requires after != [] && Content(head) == after[0] && Contents(rest) == after[1..]
    ensures Contents([head] + rest) == after
  {
    assert Contents([head] + rest) == [Content(head)] + Contents(rest);
    assert after == [after[0]] + after[1..];
  }

  lemma {:induction false} ReadWithout(nodes: seq<Node>, i: nat)
    requires i < |nodes|
    ensures Contents(Without(nodes, i)) == Without(Contents(nodes), i)
  {
  }

  // ---------------------------------------------------------------- which nodes survive

  /** How many of the first `n` values carry the identity. */
  function Count(vals: seq<Value>, key: Option<string>, wanted: Identity, n: nat): nat
    requires n <= |vals|
  {
    if n == 0 then 0
    else Count(vals, key, wanted, n - 1) + if IdentityOf(vals[n - 1], key) == wanted then 1 else 0
  }

  /** The old item that the new item at `j` is paired with: both are the same-numbered occurrence of
      their identity, the old one in `before` and the new one in `after`. */
  ghost predicate Paired(before: seq<Value>, after: seq<Value>, key: Option<string>, i: nat, j: nat)
    requires i < |before| && j < |after|
  {
    && IdentityOf(before[i], key) == IdentityOf(after[j], key)
    && Count(before, key, IdentityOf(after[j], key), i) == Count(after, key, IdentityOf(after[j], key), j)
  }

  lemma {:induction false} CountCons(v: Value, vals: seq<Value>, key: Option<string>, wanted: Identity, n: nat)
    requires n <= |vals|
    ensures Count([v] + vals, key, wanted, n + 1) ==
            Count(vals, key, wanted, n) + if IdentityOf(v, key) == wanted then 1 else 0
  {
    if n != 0 {
      CountCons(v, vals, key, wanted, n - 1);
    }
  }

  /** Taking out the first occurrence of an identity lowers the later counts of that identity only. */
  lemma {:induction false} CountWithout(vals: seq<Value>, key: Option<string>, i: nat, wanted: Identity, n: nat)
    requires i < |vals| && n < |vals|
    ensures Count(Without(vals, i), key, wanted, n) ==
            if n <= i then Count(vals, key, wanted, n)
            else Count(vals, key, wanted, n + 1) - if IdentityOf(vals[i], key) == wanted then 1 else 0
  {
    if n != 0 {
      CountWithout(vals, key, i, wanted, n - 1);
    }
  }

  lemma {:induction false} CountBeforeFirst(vals: seq<Value>, key: Option<string>, wanted: Identity, n: nat)
    requires n <= Find(vals, key, wanted)
    ensures Count(vals, key, wanted, n) == 0
  {
    if n != 0 {
      CountBeforeFirst(vals, key, wanted, n - 1);
    }
  }

  lemma CountTail(after: seq<Value>, key: Option<string>, w: Identity, j: nat)
    requires 0 < j <= |after|
    ensures Count(after, key, w, j) ==
            Count(after[1..], key, w, j - 1) + if IdentityOf(after[0], key) == w then 1 else 0
  {
    assert after == [after[0]] + after[1..];
    CountCons(after[0], after[1..], key, w, j - 1);
  }

  /** The pairing of the first new item. */
  lemma PairedHead(vals: seq<Value>, after: seq<Value>, key: Option<string>, i: nat)
    requires i < |vals| && after != []
    ensures Paired(vals, after, key, i, 0) <==> i == Find(vals, key, IdentityOf(after[0], key))
  {
    var wanted := IdentityOf(after[0], key);
    var f := Find(vals, key, wanted);
    CountBeforeFirst(vals, key, wanted, f);
    if f < i {
      CountMonotone(vals, key, wanted, f + 1, i);
    }
  }

  /** The pairing of a later item, once the first has taken nothing. */
  lemma PairedSkip(vals: seq<Value>, after: seq<Value>, key: Option<string>, i: nat, j: nat)
    requires i < |vals| && 0 < j < |after|
    requires Find(vals, key, IdentityOf(after[0], key)) == |vals|
    ensures Paired(vals, after, key, i, j) <==> Paired(vals, after[1..], key, i, j - 1)
  {
    CountTail(after, key, IdentityOf(after[j], key), j);
  }

  /** The pairing of a later item, once the first has taken the old item at `f`. */
  lemma PairedRest(vals: seq<Value>, after: seq<Value>, key: Option<string>, f: nat, i: nat, j: nat)
    requires f < |vals| && i < |vals| && 0 < j < |after|
    requires Find(vals, key, IdentityOf(after[0], key)) == f
    ensures i == f ==> !Paired(vals, after, key, i, j)
    ensures i != f ==> (Paired(vals, after, key, i, j) <==>
                        Paired(Without(vals, f), after[1..], key, if i < f then i else i - 1, j - 1))
  {
    CountTail(after, key, IdentityOf(after[j], key), j);
    CountBeforeFirst(vals, key, IdentityOf(after[0], key), f);
    if i != f {
      PairedOther(vals, after, key, f, i, j);
    }
  }

  lemma PairedOther(vals: seq<Value>, after: seq<Value>, key: Option<string>, f: nat, i: nat, j: nat)
    requires f < |vals| && i < |vals| && 0 < j < |after| && i != f
    requires Find(vals, key, IdentityOf(after[0], key)) == f
    requires var w := IdentityOf(after[j], key);
      Count(after, key, w, j) == Count(after[1..], key, w, j - 1) + if IdentityOf(after[0], key) == w then 1 else 0
    ensures Paired(vals, after, key, i, j) <==>
            Paired(Without(vals, f), after[1..], key, if i < f then i else i - 1, j - 1)
  {
    var w, k := IdentityOf(after[j], key), if i < f then i else i - 1;
    WithoutAt(vals, f, i);
    assert after[1..][j - 1] == after[j];
    CountWithout(vals, key, f, w, k);
    if i < f {
      assert Count(Without(vals, f), key, w, k) == Count(vals, key, w, i);
      if w == IdentityOf(after[0], key) {
        assert IdentityOf(vals[i], key) != w;
      }
    } else {
      assert IdentityOf(vals[f], key) == IdentityOf(after[0], key);
      assert Count(Without(vals, f), key, w, k) ==
             Count(vals, key, w, i) - if IdentityOf(after[0], key) == w then 1 else 0;
    }
  }

  lemma WithoutAt<T>(s: seq<T>, f: nat, i: nat)
    requires f < |s| && i < |s| && i != f
    ensures Without(s, f)[if i < f then i else i - 1] == s[i]
  {
  }

  ghost predicate Follows(r: Node, nodes: seq<Node>, vals: seq<Value>, after: seq<Value>, key: Option<string>, j: nat)
    requires |nodes| == |vals| && j < |after|
  {
    && (forall i | 0 <= i < |vals| && Paired(vals, after, key, i, j) :: r == Sync(nodes[i], vals[i], after[j]))
    && ((forall i | 0 <= i < |vals| :: !Paired(vals, after, key, i, j)) ==> r == Fresh(after[j]))
  }

  /** Every new item is the edited old item it is paired with, moved; an item with no partner is a
      new node. */
  lemma {:induction false} ItemKept(owner: Node, nodes: seq<Node>, vals: seq<Value>, after: seq<Value>,
                                    key: Option<string>, j: nat)
    requires owner.body.Sequence? && |nodes| == |vals| && j < |after|
    requires forall m | m in nodes :: m in owner.body.items
    ensures Follows(SyncItems(owner, nodes, vals, after, key)[j], nodes, vals, after, key, j)
    decreases |after|
  {
    var f := Find(vals, key, IdentityOf(after[0], key));
    if j == 0 {
      FollowsHead(owner, nodes, vals, after, key);
    } else if f == |vals| {
      ItemKept(owner, nodes, vals, after[1..], key, j - 1);
      FollowsSkip(SyncItems(owner, nodes, vals, after[1..], key)[j - 1], nodes, vals, after, key, j);
    } else {
      ItemKept(owner, Without(nodes, f), Without(vals, f), after[1..], key, j - 1);
      FollowsRest(SyncItems(owner, Without(nodes, f), Without(vals, f), after[1..], key)[j - 1], nodes, vals, after, key, f, j);
    }
  }

  lemma FollowsHead(owner: Node, nodes: seq<Node>, vals: seq<Value>, after: seq<Value>, key: Option<string>)
    requires owner.body.Sequence? && |nodes| == |vals| && after != []
    requires forall m | m in nodes :: m in owner.body.items
    ensures Follows(SyncItems(owner, nodes, vals, after, key)[0], nodes, vals, after, key, 0)
  {
    var f := Find(vals, key, IdentityOf(after[0], key));
    forall i | 0 <= i < |vals| ensures Paired(vals, after, key, i, 0) <==> i == f {
      PairedHead(vals, after, key, i);
    }
    if f < |vals| {
      assert Paired(vals, after, key, f, 0);
    }
  }

  lemma FollowsSkip(r: Node, nodes: seq<Node>, vals: seq<Value>, after: seq<Value>, key: Option<string>, j: nat)
    requires |nodes| == |vals| && 0 < j < |after|
    requires Find(vals, key, IdentityOf(after[0], key)) == |vals|
    requires Follows(r, nodes, vals, after[1..], key, j - 1)
    ensures Follows(r, nodes, vals, after, key, j)
  {
    var tail, j' := after[1..], j - 1;
    assert Follows(r, nodes, vals, tail, key, j');
    forall i | 0 <= i < |vals| ensures Paired(vals, after, key, i, j) <==> Paired(vals, tail, key, i, j') {
      PairedSkip(vals, after, key, i, j);
    }
  }

  lemma {:induction false} FollowsRest(r: Node, nodes: seq<Node>, vals: seq<Value>, after: seq<Value>, key: Option<string>, f: nat, j: nat)
    requires |nodes| == |vals| && f < |vals| && 0 < j < |after|
    requires Find(vals, key, IdentityOf(after[0], key)) == f
    requires Follows(r, Without(nodes, f), Without(vals, f), after[1..], key, j - 1)
    ensures Follows(r, nodes, vals, after, key, j)
  {
    forall i | 0 <= i < |vals| && Paired(vals, after, key, i, j) ensures r == Sync(nodes[i], vals[i], after[j]) {
      PairedRest(vals, after, key, f, i, j);
      FollowsPaired(r, nodes, vals, after, key, f, i, j);
    }
    if forall i | 0 <= i < |vals| :: !Paired(vals, after, key, i, j) {
      FollowsNone(vals, after, key, f, j);
    }
  }

  lemma FollowsPaired(r: Node, nodes: seq<Node>, vals: seq<Value>, after: seq<Value>, key: Option<string>, f: nat,
                      i: nat, j: nat)
    requires |nodes| == |vals| && f < |vals| && i < |vals| && 0 < j < |after| && i != f
    requires Paired(Without(vals, f), after[1..], key, if i < f then i else i - 1, j - 1)
    requires Follows(r, Without(nodes, f), Without(vals, f), after[1..], key, j - 1)
    ensures r == Sync(nodes[i], vals[i], after[j])
  {
    WithoutAt(nodes, f, i);
    WithoutAt(vals, f, i);
    assert after[1..][j - 1] == after[j];
    FollowsAt(r, Without(nodes, f), Without(vals, f), after[1..], key, if i < f then i else i - 1, j - 1);
  }

  lemma FollowsAt(r: Node, nodes: seq<Node>, vals: seq<Value>, after: seq<Value>, key: Option<string>, i: nat, j: nat)
    requires |nodes| == |vals| && j < |after| && i < |vals|
    requires Follows(r, nodes, vals, after, key, j) && Paired(vals, after, key, i, j)
    ensures r == Sync(nodes[i], vals[i], after[j])
  {
  }

  lemma FollowsNone(vals: seq<Value>, after: seq<Value>, key: Option<string>, f: nat, j: nat)
    requires f < |vals| && 0 < j < |after| && Find(vals, key, IdentityOf(after[0], key)) == f
    requires forall i | 0 <= i < |vals| :: !Paired(vals, after, key, i, j)
    ensures var vals', tail, j' := Without(vals, f), after[1..], j - 1;
      forall k | 0 <= k < |vals'| :: !Paired(vals', tail, key, k, j')
  {
    var vals', tail, j' := Without(vals, f), after[1..], j - 1;
    forall k | 0 <= k < |vals'| ensures !Paired(vals', tail, key, k, j') {
      PairedRest(vals, after, key, f, if k < f then k else k + 1, j);
    }
  }

  lemma {:induction false} CountMonotone(vals: seq<Value>, key: Option<string>, wanted: Identity, m: nat, n: nat)
    requires m <= n <= |vals|
    ensures Count(vals, key, wanted, m) <= Count(vals, key, wanted, n)
    decreases n
  {
    if m < n {
      CountMonotone(vals, key, wanted, m, n - 1);
    }
  }

  /** An edit that can be made can be made at every paired item. */
  lemma {:induction false} PairedWritable(owner: Node, nodes: seq<Node>, vals: seq<Value>, after: seq<Value>,
                                          key: Option<string>, i: nat, j: nat)
    requires owner.body.Sequence? && |nodes| == |vals| && i < |vals| && j < |after|
    requires forall m | m in nodes :: m in owner.body.items
    requires WritableItems(owner, nodes, vals, after, key) && Paired(vals, after, key, i, j)
    ensures Writable(nodes[i], vals[i], after[j])
    decreases |after|
  {
    var f := Find(vals, key, IdentityOf(after[0], key));
    if j == 0 {
      PairedHead(vals, after, key, i);
    } else if f == |vals| {
      PairedSkip(vals, after, key, i, j);
      PairedWritable(owner, nodes, vals, after[1..], key, i, j - 1);
    } else {
      PairedRest(vals, after, key, f, i, j);
      PairedWritable(owner, Without(nodes, f), Without(vals, f), after[1..], key, if i < f then i else i - 1, j - 1);
    }
  }

  /** An array keeps its own node, and each item that an old item is paired with keeps the node of
      that old item; without an identifying field it keeps it untouched. */
  lemma SurvivorsAreMoved(n: Node, after: Value, i: nat, j: nat)
    requires n.body.Sequence? && after.Arr? && Writable(n, Content(n), after)
    requires i < |n.body.items| && j < |after.items|
    requires var key := ArrayKey([Content(n).items, after.items]);
      Paired(Content(n).items, after.items, key, i, j)
    ensures var r := Sync(n, Content(n), after);
      && r.origin == n.origin && r.body.Sequence? && |r.body.items| == |after.items|
      && r.body.items[j].origin == n.body.items[i].origin
      && (ArrayKey([Content(n).items, after.items]).None? ==> r.body.items[j] == n.body.items[i])
  {
    var before := Content(n);
    var key := ArrayKey([before.items, after.items]);
    if before == after {
      PairedWithItself(before.items, key, i, j);
    } else {
      ItemKept(n, n.body.items, before.items, after.items, key, j);
      PairedWritable(n, n.body.items, before.items, after.items, key, i, j);
      if key.Some? {
        KeyedItems(before.items, after.items, i, j);
      }
    }
  }

  /** The items of arrays with an identifying field are objects. */
  lemma KeyedItems(before: seq<Value>, after: seq<Value>, i: nat, j: nat)
    requires ArrayKey([before, after]).Some? && i < |before| && j < |after|
    ensures var key := ArrayKey([before, after]).value; Tagged(before[i], key) && Tagged(after[j], key)
  {
    ArrayKeySound([before, after]);
    assert before in [before, after] && after in [before, after];
  }

  lemma PairedWithItself(vals: seq<Value>, key: Option<string>, i: nat, j: nat)
    requires i < |vals| && j < |vals| && Paired(vals, vals, key, i, j)
    ensures i == j
  {
    var w := IdentityOf(vals[j], key);
    if i < j {
      CountMonotone(vals, key, w, i + 1, j);
    } else if j < i {
      CountMonotone(vals, key, w, j + 1, i);
    }
  }

  // ---------------------------------------------------------------- paths into a document

  datatype Step = Key(name: string) | Index(i: nat)

  predicate HasChild(n: Node, s: Step) {
    match s
    case Key(name) => n.body.Mapping? && name in n.body.fields
    case Index(i) => n.body.Sequence? && i < |n.body.items|
  }

  function Child(n: Node, s: Step): (c: Node)
    requires HasChild(n, s)
    ensures c < n
  {
    match s
    case Key(name) => n.body.fields[name]
    case Index(i) => n.body.items[i]
  }

  /** A step can be written through: the node exists, or a mapping can take the new key. */
  predicate Accepts(n: Node, s: Step) {
    HasChild(n, s) || (s.Key? && n.body.Mapping?)
  }

  function WithChild(n: Node, s: Step, m: Node): Node
    requires Accepts(n, s)
  {
    match s
    case Key(name) => Node(n.origin, Mapping(n.body.keys, n.body.fields[name := m]))
    case Index(i) => Node(n.origin, Sequence(n.body.items[i := m]))
  }

  predicate HasPath(n: Node, path: seq<Step>)
    decreases |path|
  {
    path == [] || (HasChild(n, path[0]) && HasPath(Child(n, path[0]), path[1..]))
  }

  function GetIn(n: Node, path: seq<Step>): Node
    requires HasPath(n, path)
    decreases |path|
  {
    if path == [] then n else GetIn(Child(n, path[0]), path[1..])
  }

  /** The document with the node at `path` replaced. */
  function PutIn(n: Node, path: seq<Step>, m: Node): Node
    requires HasPath(n, path)
    decreases |path|
  {
    if path == [] then m
    else WithChild(n, path[0], PutIn(Child(n, path[0]), path[1..], m))
  }

  lemma {:induction false} PutGet(n: Node, path: seq<Step>, m: Node)
    requires HasPath(n, path)
    ensures HasPath(PutIn(n, path, m), path) && GetIn(PutIn(n, path, m), path) == m
    ensures PutIn(n, path, GetIn(n, path)) == n
    decreases |path|
  {
    if path != [] {
      PutGet(Child(n, path[0]), path[1..], m);
    }
  }

  lemma WithChildTwice(n: Node, s: Step, m: Node, m': Node)
    requires Accepts(n, s)
    ensures WithChild(WithChild(n, s, m), s, m') == WithChild(n, s, m')
  {
    if s.Key? {
      assert n.body.fields[s.name := m][s.name := m'] == n.body.fields[s.name := m'];
    } else {
      assert n.body.items[s.i := m][s.i := m'] == n.body.items[s.i := m'];
    }
  }

  lemma {:induction false} PutPut(n: Node, path: seq<Step>, m: Node, m': Node)
    requires HasPath(n, path)
    ensures HasPath(PutIn(n, path, m), path)
    ensures PutIn(PutIn(n, path, m), path, m') == PutIn(n, path, m')
    decreases |path|
  {
    if path != [] {
      PutPut(Child(n, path[0]), path[1..], m, m');
      WithChildTwice(n, path[0], PutIn(Child(n, path[0]), path[1..], m), PutIn(Child(n, path[0]), path[1..], m'));
    }
  }

  /** Going one step further down is a lookup in, and an update of, the node above. */
  lemma {:induction false} PutBelow(n: Node, path: seq<Step>, s: Step, m: Node)
    requires HasPath(n, path) && HasChild(GetIn(n, path), s)
    ensures HasPath(n, path + [s]) && GetIn(n, path + [s]) == Child(GetIn(n, path), s)
    ensures PutIn(n, path + [s], m) == PutIn(n, path, WithChild(GetIn(n, path), s, m))
    decreases |path|
  {
    if path != [] {
      assert (path + [s])[1..] == path[1..] + [s];
      PutBelow(Child(n, path[0]), path[1..], s, m);
    } else {
      assert (path + [s])[1..] == [];
    }
  }
}
