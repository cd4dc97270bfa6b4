/** What the aliases of an edited document read as: an alias reads as the node it names, and that node
    may have been edited in place. */
module DocumentAliases {
  import opened Options
  import opened PresetTree
  import opened DocumentSync

  /** What each anchored node reads as. */
  type Readings = map<nat, Value>

  /** What a node reads as, given what the anchored nodes do. */
  function Read(n: Node, readings: Readings): Value {
    match n.body
    case Leaf(v) => v
    case Alias(anchor, _) => if anchor in readings then readings[anchor] else Null
    case Sequence(items) => Arr(seq(|items|, i requires 0 <= i < |items| => Read(items[i], readings)))
    case Mapping(_, fields) => Obj(map k | k in fields :: Read(fields[k], readings))
  }

  ghost predicate Inside(m: Node, n: Node)
    decreases n
  {
    m == n ||
    match n.body
    case Sequence(items) => exists i :: 0 <= i < |items| && Inside(m, items[i])
    case Mapping(_, fields) => exists k :: k in fields && Inside(m, fields[k])
    case _ => false
  }

  /** The readings are those of the document's own nodes. */
  ghost predicate Consistent(root: Node, readings: Readings) {
    forall m | Inside(m, root) && m.origin.Original? ::
      m.origin.id in readings && readings[m.origin.id] == Read(m, readings)
  }

  /** The alias stands for the node; an alias has no anchor of its own. */
  ghost predicate Names(a: Node, q: Node) {
    a.body.Alias? && q.origin == Original(a.body.anchor) && !q.body.Alias?
  }

  /** Every alias names a node of the document, as the library demands when it writes the text. */
  ghost predicate Resolved(root: Node) {
    forall a | Inside(a, root) && a.body.Alias? :: exists q :: Inside(q, root) && Names(a, q)
  }

  /** Every alias still there names a node that was left with, or given, the value the alias read as. */
  ghost predicate AnchorsKept(root: Node) {
    forall a, q | Inside(a, root) && Inside(q, root) && Names(a, q) :: Content(q) == a.body.value
  }

  /** Every alias reads as it did. */
  ghost predicate AliasesAgree(n: Node, readings: Readings) {
    forall a | Inside(a, n) && a.body.Alias? :: Read(a, readings) == a.body.value
  }

  lemma InsideItem(m: Node, n: Node, i: nat)
    requires n.body.Sequence? && i < |n.body.items| && Inside(m, n.body.items[i])
    ensures Inside(m, n)
  {
  }

  lemma InsideField(m: Node, n: Node, k: string)
    requires n.body.Mapping? && k in n.body.fields && Inside(m, n.body.fields[k])
    ensures Inside(m, n)
  {
  }

  /** A node reads as when it was parsed exactly when its aliases do. */
  lemma {:induction false} ReadExact(n: Node, readings: Readings)
    ensures Read(n, readings) == Content(n) <==> AliasesAgree(n, readings)
    decreases n
  {
    match n.body
    case Leaf(v) =>
    case Alias(_, _) => assert Inside(n, n);
    case Sequence(items) => ReadItems(n, readings);
    case Mapping(_, fields) => ReadFields(n, readings);
  }

  lemma {:induction false} ReadItems(n: Node, readings: Readings)
    requires n.body.Sequence?
    ensures Read(n, readings) == Content(n) <==> AliasesAgree(n, readings)
    decreases n, 0
  {
    var items := n.body.items;
    forall i | 0 <= i < |items|
      ensures Read(items[i], readings) == Content(items[i]) <==> AliasesAgree(items[i], readings) {
      ReadExact(items[i], readings);
    }
    if Read(n, readings) == Content(n) {
      forall a | Inside(a, n) && a.body.Alias? ensures Read(a, readings) == a.body.value {
        var i :| 0 <= i < |items| && Inside(a, items[i]);
        assert Read(n, readings).items[i] == Content(n).items[i];
      }
    }
    if AliasesAgree(n, readings) {
      forall i | 0 <= i < |items| ensures Read(items[i], readings) == Content(items[i]) {
        forall a | Inside(a, items[i]) && a.body.Alias? ensures Read(a, readings) == a.body.value {
          InsideItem(a, n, i);
        }
      }
      assert Read(n, readings).items == Content(n).items;
    }
  }

  lemma {:induction false} ReadFields(n: Node, readings: Readings)
    requires n.body.Mapping?
    ensures Read(n, readings) == Content(n) <==> AliasesAgree(n, readings)
    decreases n, 0
  {
    var fields := n.body.fields;
    forall k | k in fields
      ensures Read(fields[k], readings) == Content(fields[k]) <==> AliasesAgree(fields[k], readings) {
      ReadExact(fields[k], readings);
    }
    if Read(n, readings) == Content(n) {
      forall a | Inside(a, n) && a.body.Alias? ensures Read(a, readings) == a.body.value {
        var k :| k in fields && Inside(a, fields[k]);
        assert Read(n, readings).fields[k] == Content(n).fields[k];
      }
    }
    if AliasesAgree(n, readings) {
      forall k | k in fields ensures Read(fields[k], readings) == Content(fields[k]) {
        forall a | Inside(a, fields[k]) && a.body.Alias? ensures Read(a, readings) == a.body.value {
          InsideField(a, n, k);
        }
      }
      assert Read(n, readings).fields == Content(n).fields;
    }
  }

  lemma {:induction false} InsideTrans(a: Node, m: Node, n: Node)
    requires Inside(a, m) && Inside(m, n)
    ensures Inside(a, n)
    decreases n
  {
    if m != n {
      match n.body
      case Sequence(items) =>
        var i :| 0 <= i < |items| && Inside(m, items[i]);
        InsideTrans(a, m, items[i]);
      case Mapping(_, fields) =>
        var k :| k in fields && Inside(m, fields[k]);
        InsideTrans(a, m, fields[k]);
    }
  }

  /** If the anchors are kept, every node reads as its content. */
  lemma {:induction false} KeptReads(root: Node, m: Node, readings: Readings)
    requires Consistent(root, readings) && Resolved(root) && AnchorsKept(root) && Inside(m, root)
    ensures Read(m, readings) == Content(m)
    decreases Read(m, readings), m.body.Alias?
  {
    match m.body
    case Leaf(v) =>
    case Alias(_, _) =>
      var q :| Inside(q, root) && Names(m, q);
      KeptReads(root, q, readings);
    case Sequence(items) =>
      forall i | 0 <= i < |items| ensures Read(items[i], readings) == Content(items[i]) {
        assert Read(m, readings).items[i] == Read(items[i], readings);
        assert Inside(items[i], m);
        InsideTrans(items[i], m, root);
        KeptReads(root, items[i], readings);
      }
      assert Read(m, readings).items == Content(m).items;
    case Mapping(_, fields) =>
      forall k | k in fields ensures Read(fields[k], readings) == Content(fields[k]) {
        assert Read(m, readings).fields[k] == Read(fields[k], readings);
        assert Inside(fields[k], m);
        InsideTrans(fields[k], m, root);
        KeptReads(root, fields[k], readings);
      }
      assert Read(m, readings).fields == Content(m).fields;
  }

  lemma AgreeKept(root: Node, readings: Readings)
    requires Consistent(root, readings) && AliasesAgree(root, readings)
    ensures AnchorsKept(root)
  {
    forall a, q | Inside(a, root) && Inside(q, root) && Names(a, q) ensures Content(q) == a.body.value {
      assert Read(a, readings) == a.body.value;
      forall b | Inside(b, q) && b.body.Alias? ensures Read(b, readings) == b.body.value {
        InsideTrans(b, q, root);
      }
      ReadExact(q, readings);
    }
  }

  /** With aliases followed, a document reads as its content exactly when the anchors are kept. */
  lemma ReadsContent(root: Node, readings: Readings)
    requires Resolved(root) && Consistent(root, readings)
    ensures Read(root, readings) == Content(root) <==> AnchorsKept(root)
  {
    ReadExact(root, readings);
    if AnchorsKept(root) {
      KeptReads(root, root, readings);
    }
    if AliasesAgree(root, readings) {
      AgreeKept(root, readings);
    }
  }

  // ---------------------------------------------------------------- which nodes an edit leaves, and with what

  /** The edit of `n` from `before` to `after` leaves the node `m` of it in the document, and `v` is what
      is wanted of it: everything where nothing changes, else the node itself and what is left below. */
  ghost predicate Stays(n: Node, before: Value, after: Value, m: Node, v: Value)
    decreases n
  {
    if before == after then Inside(m, n) && v == Content(m)
    else if before.Obj? && after.Obj? && n.body.Mapping? then
      || (m == n && v == after)
      || exists k :: k in after.fields && k in before.fields && k in n.body.fields
                     && Stays(n.body.fields[k], before.fields[k], after.fields[k], m, v)
    else if before.Arr? && after.Arr? && n.body.Sequence? && |n.body.items| == |before.items| then
      || (m == n && v == after)
      || exists i, j :: 0 <= i < |before.items| && 0 <= j < |after.items|
                        && Paired(before.items, after.items, ArrayKey([before.items, after.items]), i, j)
                        && Stays(n.body.items[i], before.items[i], after.items[j], m, v)
    else m == n && v == after && n.body.Leaf? && Scalar(n.body.value) && Scalar(after)
  }

  /** The same node in the edited document: with its anchor, and reading as wanted. */
  ghost predicate Same(m: Node, v: Value, r: Node) {
    && r.origin == m.origin && Content(r) == v
    && (r.body.Alias? <==> m.body.Alias?) && (m.body.Alias? ==> r == m)
  }

  ghost predicate New(r: Node) {
    r.origin.Created? && r.body.Leaf?
  }

  /** A node of the edited document is one that stays, or new. */
  ghost predicate Comes(n: Node, after: Value, r: Node) {
    New(r) || exists m, v :: Stays(n, Content(n), after, m, v) && Same(m, v, r)
  }

  lemma {:induction false} ComesFrom(n: Node, after: Value, r: Node)
    requires Inside(r, Sync(n, Content(n), after))
    ensures Comes(n, after, r)
    decreases n
  {
    var before := Content(n);
    SyncReads(n, after);
    if before == after {
      assert Stays(n, before, after, r, Content(r)) && Same(r, Content(r), r);
    } else if r == Sync(n, before, after) {
      if !New(r) {
        assert Stays(n, before, after, n, after) && Same(n, after, r);
      }
    } else if after.Obj? && n.body.Mapping? {
      ComesFromField(n, after, r);
    } else if after.Arr? && n.body.Sequence? {
      ComesFromItem(n, after, r);
    }
  }

  lemma {:induction false} ComesFromField(n: Node, after: Value, r: Node)
    requires n.body.Mapping? && after.Obj? && Content(n) != after
    requires Inside(r, Sync(n, Content(n), after)) && r != Sync(n, Content(n), after)
    ensures Comes(n, after, r)
    decreases n, 0
  {
    var before := Content(n);
    var k :| k in after.fields && Inside(r, Sync(n, before, after).body.fields[k]);
    if k in n.body.fields {
      ComesFrom(n.body.fields[k], after.fields[k], r);
      if !New(r) {
        var m, v :| Stays(n.body.fields[k], before.fields[k], after.fields[k], m, v) && Same(m, v, r);
        assert Stays(n, before, after, m, v);
      }
    }
  }

  lemma {:induction false} ComesFromItem(n: Node, after: Value, r: Node)
    requires n.body.Sequence? && after.Arr? && Content(n) != after
    requires Inside(r, Sync(n, Content(n), after)) && r != Sync(n, Content(n), after)
    ensures Comes(n, after, r)
    decreases n, 0
  {
    var before := Content(n);
    var key := ArrayKey([before.items, after.items]);
    var items := Sync(n, before, after).body.items;
    var j :| 0 <= j < |items| && Inside(r, items[j]);
    ItemKept(n, n.body.items, before.items, after.items, key, j);
    if i :| 0 <= i < |before.items| && Paired(before.items, after.items, key, i, j) {
      assert n.body.items[i] in n.body.items;
      ComesFrom(n.body.items[i], after.items[j], r);
      if !New(r) {
        var m, v :| Stays(n.body.items[i], before.items[i], after.items[j], m, v) && Same(m, v, r);
        assert Stays(n, before, after, m, v);
      }
    } else {
      assert items[j] == Fresh(after.items[j]);
    }
  }

  /** A node that stays is in the edited document. */
  lemma {:induction false} GoesTo(n: Node, after: Value, m: Node, v: Value) returns (r: Node)
    requires Stays(n, Content(n), after, m, v)
    ensures Inside(r, Sync(n, Content(n), after)) && Same(m, v, r)
    decreases n
  {
    var before := Content(n);
    SyncReads(n, after);
    if before == after {
      r := m;
    } else if m == n && v == after {
      r := Sync(n, before, after);
    } else if after.Obj? {
      var k :| k in after.fields && k in before.fields && k in n.body.fields
               && Stays(n.body.fields[k], before.fields[k], after.fields[k], m, v);
      r := GoesTo(n.body.fields[k], after.fields[k], m, v);
      InsideField(r, Sync(n, before, after), k);
    } else {
      r := GoesToItem(n, after, m, v);
    }
  }

  lemma {:induction false} GoesToItem(n: Node, after: Value, m: Node, v: Value) returns (r: Node)
    requires Stays(n, Content(n), after, m, v) && Content(n) != after && !(m == n && v == after)
    requires after.Arr? && n.body.Sequence?
    ensures Inside(r, Sync(n, Content(n), after)) && Same(m, v, r)
    decreases n, 0
  {
    var before := Content(n);
    var key := ArrayKey([before.items, after.items]);
    var i, j :| 0 <= i < |before.items| && 0 <= j < |after.items| && Paired(before.items, after.items, key, i, j)
                && Stays(n.body.items[i], before.items[i], after.items[j], m, v);
    assert n.body.items[i] in n.body.items;
    ItemKept(n, n.body.items, before.items, after.items, key, j);
    r := GoesTo(n.body.items[i], after.items[j], m, v);
    InsideItem(r, Sync(n, before, after), j);
  }

  // ---------------------------------------------------------------- when the edited document reads as wanted

  ghost predicate AliasStays(n: Node, after: Value, a: Node) {
    a.body.Alias? && Stays(n, Content(n), after, a, a.body.value)
  }

  /** Every alias that stays names a node that stays. */
  ghost predicate AliasesNamed(n: Node, after: Value) {
    forall a | AliasStays(n, after, a) :: exists q, v :: Names(a, q) && Stays(n, Content(n), after, q, v)
  }

  /** What is wanted of a node that an alias names, if both stay, is what the alias read as. */
  ghost predicate AnchorsWanted(n: Node, after: Value) {
    forall a, q, v | AliasStays(n, after, a) && Names(a, q) && Stays(n, Content(n), after, q, v) :: v == a.body.value
  }

  lemma NamedExact(n: Node, after: Value)
    ensures AliasesNamed(n, after) <==> Resolved(Sync(n, Content(n), after))
  {
    var r := Sync(n, Content(n), after);
    if AliasesNamed(n, after) {
      forall a | Inside(a, r) && a.body.Alias? ensures exists q :: Inside(q, r) && Names(a, q) {
        ComesFrom(n, after, a);
        assert AliasStays(n, after, a);
        var q, v :| Names(a, q) && Stays(n, Content(n), after, q, v);
        var q' := GoesTo(n, after, q, v);
        assert Names(a, q');
      }
    }
    if Resolved(r) {
      forall a | AliasStays(n, after, a) ensures exists q, v :: Names(a, q) && Stays(n, Content(n), after, q, v) {
        var a' := GoesTo(n, after, a, a.body.value);
        var q' :| Inside(q', r) && Names(a, q');
        ComesFrom(n, after, q');
        var q, v :| Stays(n, Content(n), after, q, v) && Same(q, v, q');
        assert Names(a, q);
      }
    }
  }

  lemma WantedExact(n: Node, after: Value)
    ensures AnchorsWanted(n, after) <==> AnchorsKept(Sync(n, Content(n), after))
  {
    var r := Sync(n, Content(n), after);
    if AnchorsWanted(n, after) {
      forall a, q' | Inside(a, r) && Inside(q', r) && Names(a, q') ensures Content(q') == a.body.value {
        ComesFrom(n, after, a);
        ComesFrom(n, after, q');
        var q, v :| Stays(n, Content(n), after, q, v) && Same(q, v, q');
        assert AliasStays(n, after, a) && Names(a, q);
      }
    }
    if AnchorsKept(r) {
      forall a, q, v | AliasStays(n, after, a) && Names(a, q) && Stays(n, Content(n), after, q, v)
        ensures v == a.body.value {
        var a' := GoesTo(n, after, a, a.body.value);
        var q' := GoesTo(n, after, q, v);
        assert Names(a', q');
      }
    }
  }

  /** With aliases followed, the edited document reads as wanted exactly when what is wanted of every
      node that stays and that an alias that stays names is what the alias read as. */
  lemma EditReadsExact(n: Node, after: Value, readings: Readings)
    requires AliasesNamed(n, after) && Consistent(Sync(n, Content(n), after), readings)
    ensures Read(Sync(n, Content(n), after), readings) == after <==> AnchorsWanted(n, after)
  {
    SyncReads(n, after);
    NamedExact(n, after);
    WantedExact(n, after);
    ReadsContent(Sync(n, Content(n), after), readings);
  }

  // ---------------------------------------------------------------- an anchored node that is edited

  /** `b` is an alias of the node under `a`. */
  function Shared(a: Node, was: Value): Node {
    Node(Original(0), Mapping(["a", "b"], map["a" := a, "b" := Node(Original(2), Alias(1, was))]))
  }

  function Pair(a: Value, b: Value): Value {
    Obj(map["a" := a, "b" := b])
  }

  /** The node is anchored, holds no alias, and the edit changes it and leaves it where it is. */
  ghost predicate AnchorEdited(a: Node, wanted: Value) {
    && a.origin == Original(1) && (forall m | Inside(m, a) :: !m.body.Alias?)
    && wanted != Content(a) && Stays(a, Content(a), wanted, a, wanted)
  }

  /** It does so exactly where a scalar is given a scalar, a list a list, and a mapping a mapping. */
  lemma AnchorStays(a: Node, wanted: Value)
    requires wanted != Content(a)
    ensures Stays(a, Content(a), wanted, a, wanted) <==>
            || (a.body.Mapping? && wanted.Obj?) || (a.body.Sequence? && wanted.Arr?)
            || (a.body.Leaf? && Scalar(a.body.value) && Scalar(wanted))
  {
  }

  lemma SharedRead(a: Node)
    ensures Content(Shared(a, Content(a))) == Pair(Content(a), Content(a))
  {
    assert Content(Shared(a, Content(a))).fields == Pair(Content(a), Content(a)).fields;
  }

  /** Asked to change `a` and to keep `b`, the edit changes the node and leaves the alias. */
  lemma SharedEdited(a: Node, wanted: Value)
    requires wanted != Content(a)
    ensures var was := Content(a); (
      && Sync(Shared(a, was), Pair(was, was), Pair(wanted, was)) == Shared(Sync(a, was, wanted), was)
      && (Writable(Shared(a, was), Pair(was, was), Pair(wanted, was)) <==> Writable(a, was, wanted)))
  {
    var was := Content(a);
    var n, r, before, after := Shared(a, was), Shared(Sync(a, was, wanted), was), Pair(was, was), Pair(wanted, was);
    assert before != after by { assert before.fields["a"] != after.fields["a"]; }
    assert before.fields["b"] == was == after.fields["b"] && after.fields["a"] == wanted;
    assert Sync(n.body.fields["b"], was, was) == n.body.fields["b"];
    assert Sync(n, before, after).body.fields == r.body.fields;
  }

  lemma EditedPlain(a: Node, wanted: Value)
    requires AnchorEdited(a, wanted)
    ensures var a' := Sync(a, Content(a), wanted); (
      && a'.origin == Original(1) && !a'.body.Alias? && Content(a') == wanted
      && forall m | Inside(m, a') :: !m.body.Alias?)
  {
    var a' := Sync(a, Content(a), wanted);
    SyncReads(a, wanted);
    forall m | Inside(m, a') ensures !m.body.Alias? {
      ComesFrom(a, wanted, m);
      if !New(m) {
        var m', v :| Stays(a, Content(a), wanted, m', v) && Same(m', v, m);
        StaysInside(a, Content(a), wanted, m', v);
      }
    }
    assert Inside(a', a');
  }

  lemma {:induction false} StaysInside(n: Node, before: Value, after: Value, m: Node, v: Value)
    requires Stays(n, before, after, m, v)
    ensures Inside(m, n)
    decreases n
  {
    if before != after && m != n {
      if after.Obj? {
        var k :| k in after.fields && k in before.fields && k in n.body.fields
                 && Stays(n.body.fields[k], before.fields[k], after.fields[k], m, v);
        StaysInside(n.body.fields[k], before.fields[k], after.fields[k], m, v);
      } else {
        var i, j :| 0 <= i < |before.items| && 0 <= j < |after.items|
                    && Stays(n.body.items[i], before.items[i], after.items[j], m, v);
        assert n.body.items[i] in n.body.items;
        StaysInside(n.body.items[i], before.items[i], after.items[j], m, v);
        InsideItem(m, n, i);
      }
    }
  }

  lemma InsideShared(a: Node, was: Value)
    ensures var n := Shared(a, was); Inside(a, n) && Inside(n.body.fields["b"], n)
    ensures var n := Shared(a, was); forall m | Inside(m, n) :: m == n || Inside(m, a) || m == n.body.fields["b"]
  {
    var n := Shared(a, was);
    InsideField(a, n, "a");
    assert Inside(n.body.fields["b"], n.body.fields["b"]);
    InsideField(n.body.fields["b"], n, "b");
  }

  /** The alias still names the node, and what is wanted of it is not what the alias read as. */
  lemma SharedUnwanted(a: Node, wanted: Value)
    requires AnchorEdited(a, wanted)
    ensures var was := Content(a); var n := Shared(a, was); (
      && AliasesNamed(n, Pair(wanted, was)) && !AnchorsWanted(n, Pair(wanted, was)))
  {
    var was := Content(a);
    var n, after := Shared(a, was), Pair(wanted, was);
    var a' := Sync(a, was, wanted);
    var r := Shared(a', was);
    SharedRead(a);
    SharedEdited(a, wanted);
    EditedPlain(a, wanted);
    InsideShared(a', was);
    assert Names(r.body.fields["b"], a');
    NamedExact(n, after);
    WantedExact(n, after);
  }

  /** The document then reads with both changed, which is not what was wanted. */
  lemma SharedReads(a: Node, wanted: Value, readings: Readings)
    requires AnchorEdited(a, wanted)
    requires var was := Content(a); Consistent(Sync(Shared(a, was), Pair(was, was), Pair(wanted, was)), readings)
    ensures var was := Content(a);
      Read(Sync(Shared(a, was), Pair(was, was), Pair(wanted, was)), readings) == Pair(wanted, wanted)
  {
    var was, a' := Content(a), Sync(a, Content(a), wanted);
    var r := Shared(a', was);
    SharedEdited(a, wanted);
    EditedPlain(a, wanted);
    InsideShared(a', was);
    ReadExact(a', readings);
    BothRead(a', was, wanted, readings);
  }

  lemma BothRead(a: Node, was: Value, wanted: Value, readings: Readings)
    requires a.origin == Original(1) && Read(a, readings) == wanted && 1 in readings && readings[1] == Read(a, readings)
    ensures Read(Shared(a, was), readings) == Pair(wanted, wanted)
  {
    assert Read(Shared(a, was), readings).fields == Pair(wanted, wanted).fields;
  }

  /** An anchored number that is changed is such a node, and the edit can be made. */
  lemma NumberEdited(x: int, y: int)
    requires x != y
    ensures var a := Node(Original(1), Leaf(Num(x)));
      AnchorEdited(a, Num(y)) && Writable(a, Num(x), Num(y)) && Sync(a, Num(x), Num(y)) == Node(Original(1), Leaf(Num(y)))
  {
  }

  /** Readings of the edited document there are. */
  lemma SharedNumberReads(x: int, y: int) returns (readings: Readings)
    requires x != y
    ensures Consistent(Shared(Node(Original(1), Leaf(Num(y))), Num(x)), readings)
  {
    var a' := Node(Original(1), Leaf(Num(y)));
    readings := map[0 := Pair(Num(y), Num(y)), 1 := Num(y), 2 := Num(y)];
    InsideShared(a', Num(x));
    assert Read(Shared(a', Num(x)), readings).fields == Pair(Num(y), Num(y)).fields;
  }
}
