/** Which node every part of an edited document is, told of the values before and after: of the strings
    that identify items, of equal values, and of keys. */
module DocumentItems {
  import opened Options
  import opened PresetTree
  import opened DocumentSync
  import E = DocumentEditor

  // ---------------------------------------------------------------- the node itself

  /** The edit keeps a node whose value is wanted, a mapping given an object, a sequence given an array
      and a scalar given a scalar; anything else becomes a new leaf. */
  lemma NodeKept(n: Node, after: Value)
    ensures var r := Sync(n, Content(n), after);
      if || Content(n) == after || (n.body.Mapping? && after.Obj?) || (n.body.Sequence? && after.Arr?)
         || (n.body.Leaf? && !n.body.value.Obj? && !n.body.value.Arr? && !after.Obj? && !after.Arr?)
      then r.origin == n.origin
      else r == Node(Created, Leaf(after))
    ensures Content(n) == after ==> Sync(n, Content(n), after) == n
    ensures n.body.Mapping? && after.Obj? ==> Sync(n, Content(n), after).body.Mapping?
    ensures n.body.Sequence? && after.Arr? ==> Sync(n, Content(n), after).body.Sequence?
    ensures n.body.Leaf? && Content(n) != after ==> Sync(n, Content(n), after).body == Leaf(after)
  {
  }

  // ---------------------------------------------------------------- keys

  /** An edited mapping has exactly the wanted keys: under one it had, the old node, edited, and under
      a new one a new leaf. */
  lemma FieldTaken(n: Node, after: Value, k: string)
    requires n.body.Mapping? && after.Obj?
    ensures var r := Sync(n, Content(n), after); (
      && r.body.Mapping? && r.body.keys == n.body.keys
      && (k in r.body.fields <==> k in after.fields)
      && (k in after.fields && k in n.body.fields ==>
            r.body.fields[k] == Sync(n.body.fields[k], Content(n.body.fields[k]), after.fields[k]))
      && (k in after.fields && k !in n.body.fields ==> r.body.fields[k] == Node(Created, Leaf(after.fields[k]))))
  {
    if Content(n) == after && k in after.fields {
      assert Content(n).fields[k] == Content(n.body.fields[k]);
    }
  }

  // ---------------------------------------------------------------- items with an identifying field

  lemma {:induction false} CountOnce(vals: seq<Value>, key: string, id: string, n: nat)
    requires KeyedBy(vals, key) && n <= |vals|
    ensures Count(vals, Some(key), ById(id), n) == if exists i :: 0 <= i < n && IdOf(vals[i], key) == id then 1 else 0
  {
    if n > 0 {
      CountOnce(vals, key, id, n - 1);
      assert Tagged(vals[n - 1], key);
      if IdOf(vals[n - 1], key) == id {
        assert forall i | 0 <= i < n - 1 :: IdOf(vals[i], key) != id;
      }
    }
  }

  lemma KeyedPaired(before: seq<Value>, after: seq<Value>, key: string, i: nat, j: nat)
    requires KeyedBy(before, key) && KeyedBy(after, key) && i < |before| && j < |after|
    ensures Paired(before, after, Some(key), i, j) <==> IdOf(before[i], key) == IdOf(after[j], key)
  {
    assert Tagged(before[i], key) && Tagged(after[j], key);
    var id := IdOf(after[j], key);
    CountOnce(after, key, id, j);
    if IdOf(before[i], key) == id {
      CountOnce(before, key, id, i);
    }
  }

  /** Where a field identifies the items, the item at each place of the edited sequence is the old node
      with the same string, edited to what is wanted there, and a new leaf if no old item has that
      string. */
  lemma KeyedItemTaken(n: Node, after: Value, key: string, j: nat)
    requires n.body.Sequence? && after.Arr? && j < |after.items| && Content(n) != after
    requires ArrayKey([Content(n).items, after.items]) == Some(key)
    ensures var r := Sync(n, Content(n), after); var before := Content(n).items; (
      && r.body.Sequence? && |r.body.items| == |after.items|
      && (forall i | 0 <= i < |before| && IdOf(before[i], key) == IdOf(after.items[j], key) ::
            r.body.items[j] == Sync(n.body.items[i], before[i], after.items[j]))
      && ((forall i | 0 <= i < |before| :: IdOf(before[i], key) != IdOf(after.items[j], key)) ==>
            r.body.items[j] == Node(Created, Leaf(after.items[j]))))
  {
    var before := Content(n).items;
    ArrayKeySound([before, after.items]);
    ItemKept(n, n.body.items, before, after.items, Some(key), j);
    forall i | 0 <= i < |before|
      ensures Paired(before, after.items, Some(key), i, j) <==> IdOf(before[i], key) == IdOf(after.items[j], key) {
      KeyedPaired(before, after.items, key, i, j);
    }
  }

  /** That node keeps its origin, whatever else of it changes, in a document that can be edited. */
  lemma KeyedItemKept(n: Node, after: Value, key: string, i: nat, j: nat)
    requires n.body.Sequence? && after.Arr? && i < |n.body.items| && j < |after.items|
    requires ArrayKey([Content(n).items, after.items]) == Some(key) && Writable(n, Content(n), after)
    requires IdOf(Content(n).items[i], key) == IdOf(after.items[j], key)
    ensures var r := Sync(n, Content(n), after);
      r.body.Sequence? && |r.body.items| == |after.items| && r.body.items[j].origin == n.body.items[i].origin
  {
    ArrayKeySound([Content(n).items, after.items]);
    KeyedPaired(Content(n).items, after.items, key, i, j);
    SurvivorsAreMoved(n, after, i, j);
  }

  // ---------------------------------------------------------------- items without one

  lemma {:induction false} CountEqual(vals: seq<Value>, v: Value, n: nat)
    requires n <= |vals|
    ensures Count(vals, None, ByValue(v), n) == multiset(vals[..n])[v]
  {
    if n > 0 {
      CountEqual(vals, v, n - 1);
      assert vals[..n] == vals[..n - 1] + [vals[n - 1]];
    }
  }

  lemma EqualPaired(before: seq<Value>, after: seq<Value>, i: nat, j: nat)
    requires i < |before| && j < |after|
    ensures Paired(before, after, None, i, j) <==>
            before[i] == after[j] && multiset(before[..i])[before[i]] == multiset(after[..j])[after[j]]
  {
    CountEqual(before, after[j], i);
    CountEqual(after, after[j], j);
  }

  lemma {:induction false} NthEqual(vals: seq<Value>, v: Value, k: nat, n: nat) returns (i: nat)
    requires n <= |vals| && k < multiset(vals[..n])[v]
    ensures i < n && vals[i] == v && multiset(vals[..i])[v] == k
  {
    assert vals[..n] == vals[..n - 1] + [vals[n - 1]];
    if k < multiset(vals[..n - 1])[v] {
      i := NthEqual(vals, v, k, n - 1);
    } else {
      i := n - 1;
    }
  }

  lemma NoMore(vals: seq<Value>, v: Value)
    ensures forall i | 0 <= i < |vals| && vals[i] == v :: multiset(vals[..i])[v] < multiset(vals)[v]
  {
    forall i | 0 <= i < |vals| && vals[i] == v ensures multiset(vals[..i])[v] < multiset(vals)[v] {
      assert vals == vals[..i] + [vals[i]] + vals[i + 1..];
    }
  }

  /** The k-th of some equal items that are wanted is the k-th old node with that value, untouched, or
      new if there were not as many. */
  ghost predicate TakesEqual(r: Node, nodes: seq<Node>, before: seq<Value>, v: Value, k: nat)
    requires |nodes| == |before|
  {
    && (forall i | 0 <= i < |before| && before[i] == v && multiset(before[..i])[v] == k :: r == nodes[i])
    && (if k < multiset(before)[v] then exists i :: 0 <= i < |before| && before[i] == v && multiset(before[..i])[v] == k
        else r == Node(Created, Leaf(v)))
  }

  lemma EqualFollows(r: Node, nodes: seq<Node>, before: seq<Value>, after: seq<Value>, j: nat)
    requires |nodes| == |before| && j < |after| && Follows(r, nodes, before, after, None, j)
    ensures TakesEqual(r, nodes, before, after[j], multiset(after[..j])[after[j]])
  {
    var v := after[j];
    var k := multiset(after[..j])[v];
    forall i | 0 <= i < |before|
      ensures Paired(before, after, None, i, j) <==> before[i] == v && multiset(before[..i])[v] == k {
      EqualPaired(before, after, i, j);
    }
    if k < multiset(before)[v] {
      assert before[..|before|] == before;
      var i := NthEqual(before, v, k, |before|);
    } else {
      NoMore(before, v);
    }
  }

  /** Where no field identifies the items, an edited sequence takes its old nodes so. */
  lemma EqualItemTaken(n: Node, after: Value, j: nat)
    requires n.body.Sequence? && after.Arr? && j < |after.items| && Content(n) != after
    requires ArrayKey([Content(n).items, after.items]).None?
    ensures var r, v := Sync(n, Content(n), after), after.items[j]; (
      && r.body.Sequence? && |r.body.items| == |after.items|
      && TakesEqual(r.body.items[j], n.body.items, Content(n).items, v, multiset(after.items[..j])[v]))
  {
    var before := Content(n).items;
    ItemKept(n, n.body.items, before, after.items, None, j);
    EqualFollows(Sync(n, Content(n), after).body.items[j], n.body.items, before, after.items, j);
  }

  // ---------------------------------------------------------------- the document around it

  /** An edit below a path puts the edited node there, and putting the old one back gives the old
      document: nothing else has changed. Only a scalar that is the whole document is never kept. */
  lemma EditedThere(root: Node, path: seq<Step>, n: Node, after: Value)
    requires HasPath(root, path) && GetIn(root, path) == n
    ensures var r := E.Edited(root, path, n, Content(n), after);
      if path == [] && Content(n) != after && !Content(n).Obj? && !Content(n).Arr? && !after.Obj? && !after.Arr?
      then r == Node(Created, Leaf(after))
      else HasPath(r, path) && GetIn(r, path) == Sync(n, Content(n), after) && PutIn(r, path, n) == root
  {
    var m := Sync(n, Content(n), after);
    PutGet(root, path, m);
    PutPut(root, path, m, n);
    PutGet(root, path, n);
  }
}
