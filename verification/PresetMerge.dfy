/** The three-way merge of engine templates, as a function of the three trees, and the laws a
    preset upgrade relies on. */
module PresetMerge {
  import opened Options
  import opened PresetTree

  // ---------------------------------------------------------------- the merged tree

  /** All three sides differ, so neither side's value can simply be taken. */
  predicate Diverged(b: Maybe, u: Maybe, p: Maybe) {
    u != b && p != b && u != p
  }

  /** Both sides hold objects, over a base object or nothing: the merge goes field by field. */
  predicate ObjectNode(b: Maybe, u: Maybe, p: Maybe) {
    && Diverged(b, u, p)
    && u.Present? && u.value.Obj? && p.Present? && p.value.Obj?
    && (b.Present? ==> b.value.Obj?)
  }

  /** Both sides hold arrays, over a base array or nothing: the merge goes item by item. */
  predicate ArrayNode(b: Maybe, u: Maybe, p: Maybe) {
    && Diverged(b, u, p)
    && u.Present? && u.value.Arr? && p.Present? && p.value.Arr?
    && (b.Present? ==> b.value.Arr?)
  }

  /** The value the merge leaves at one place of the tree. */
  function Merge(b: Maybe, u: Maybe, p: Maybe): (m: Maybe)
    ensures u.Present? && p.Present? ==> m.Present?
    decreases u.Present?, ValueOf(u)
  {
    if u == b then p
    else if p == b || u == p then u
    else if ObjectNode(b, u, p) then
      Present(Obj(map k |
        k in Keys(b, u, p) && Merge(Field(b, k), Field(u, k), Field(p, k)).Present? ::
        Merge(Field(b, k), Field(u, k), Field(p, k)).value))
    else if ArrayNode(b, u, p) then
      Present(Arr(MergeItems(ItemsOf(b), ItemsOf(u), ItemsOf(p))))
    else u
  }

  /** The fields of a base object; an absent base merges like an empty one. */
  function FieldsOf(b: Maybe): map<string, Value> {
    if b.Present? && b.value.Obj? then b.value.fields else map[]
  }

  function Field(v: Maybe, key: string): Maybe {
    Get(FieldsOf(v), key)
  }

  function Keys(b: Maybe, u: Maybe, p: Maybe): set<string> {
    FieldsOf(b).Keys + FieldsOf(u).Keys + FieldsOf(p).Keys
  }

  function ItemsOf(b: Maybe): seq<Value> {
    if b.Present? && b.value.Arr? then b.value.items else []
  }

  function MergeItems(b: seq<Value>, u: seq<Value>, p: seq<Value>): seq<Value>
    decreases true, Arr(u), 2
  {
    match ArrayKey([b, u, p])
    case Some(key) => MergeOrder(b, u, p, key, Order(u, p, key))
    case None => var kept := Kept(u, b, p); kept + Added(p, b, kept)
  }

  /** The user's ids in the user's order, then the preset's other ids in the preset's order. */
  function Order(u: seq<Value>, p: seq<Value>, key: string): seq<string> {
    Ids(u, key) + Without(Ids(p, key), Ids(u, key))
  }

  function Without(ids: seq<string>, drop: seq<string>): (r: seq<string>)
    ensures forall x :: x in r <==> x in ids && x !in drop
  {
    if ids == [] then []
    else (if ids[0] in drop then [] else [ids[0]]) + Without(ids[1..], drop)
  }

  function MergeOrder(b: seq<Value>, u: seq<Value>, p: seq<Value>, key: string, order: seq<string>): seq<Value>
    decreases true, Arr(u), 1, |order|
  {
    if order == [] then []
    else
      var v := MergeItem(b, u, p, key, order[0]);
      (if v.Present? then [v.value] else []) + MergeOrder(b, u, p, key, order[1..])
  }

  /** Items under one id. An id the base lacks and both sides added differently stays the user's. */
  function MergeItem(b: seq<Value>, u: seq<Value>, p: seq<Value>, key: string, id: string): Maybe
    decreases true, Arr(u), 0
  {
    var bv, uv, pv := Lookup(b, key, id), Lookup(u, key, id), Lookup(p, key, id);
    if AddedTwice(bv, uv, pv) then uv else Merge(bv, uv, pv)
  }

  predicate AddedTwice(b: Maybe, u: Maybe, p: Maybe) {
    b.Missing? && u.Present? && p.Present? && u != p
  }

  /** Unidentified arrays: the user's items without those the preset dropped from the base. */
  function Kept(u: seq<Value>, b: seq<Value>, p: seq<Value>): (r: seq<Value>)
    ensures forall v :: v in r <==> v in u && !(v in b && v !in p)
  {
    if u == [] then []
    else (if u[0] in b && u[0] !in p then [] else [u[0]]) + Kept(u[1..], b, p)
  }

  /** The preset's items that neither the base nor the result so far contains, once each. */
  function Added(p: seq<Value>, b: seq<Value>, seen: seq<Value>): (r: seq<Value>)
    ensures forall v :: v in r <==> v in p && v !in b && v !in seen
  {
    if p == [] then []
    else if p[0] in b || p[0] in seen then Added(p[1..], b, seen)
    else [p[0]] + Added(p[1..], b, seen + [p[0]])
  }

  // ---------------------------------------------------------------- identified arrays

  lemma {:induction false} WithoutDistinct(ids: seq<string>, drop: seq<string>)
    requires Distinct(ids)
    ensures Distinct(Without(ids, drop))
  {
    if ids != [] {
      assert ids[0] !in ids[1..];
      WithoutDistinct(ids[1..], drop);
    }
  }

  lemma OrderFacts(u: seq<Value>, p: seq<Value>, key: string)
    requires KeyedBy(u, key) && KeyedBy(p, key)
    ensures Distinct(Order(u, p, key))
    ensures forall id ::
      id in Order(u, p, key) <==> Lookup(u, key, id).Present? || Lookup(p, key, id).Present?
  {
    LookupIds(u, key, "");
    LookupIds(p, key, "");
    WithoutDistinct(Ids(p, key), Ids(u, key));
    var head, tail := Ids(u, key), Without(Ids(p, key), Ids(u, key));
    forall i, j | 0 <= i < j < |head + tail| ensures (head + tail)[i] != (head + tail)[j] {
      if i < |head| <= j {
        assert head[i] in head && tail[j - |head|] in tail;
      }
    }
    forall id ensures id in Order(u, p, key) <==> Lookup(u, key, id).Present? || Lookup(p, key, id).Present? {
      LookupIds(u, key, id);
      LookupIds(p, key, id);
    }
  }

  /** Merging items that share an id gives an item with that id. */
  lemma MergedItemId(b: seq<Value>, u: seq<Value>, p: seq<Value>, key: string, id: string)
    ensures var m := MergeItem(b, u, p, key, id); m.Present? ==> HasId(m.value, key, id)
  {
    var bv, uv, pv := Lookup(b, key, id), Lookup(u, key, id), Lookup(p, key, id);
    if uv.Present? && pv.Present? && uv != bv && pv != bv && uv != pv && bv.Present? {
      var m := Merge(bv, uv, pv);
      assert Field(uv, key) == Field(pv, key) == Present(Str(id));
      assert Merge(Field(bv, key), Field(uv, key), Field(pv, key)) == Present(Str(id));
    }
  }

  /** The items a lookup finds for a list of ids, in order. */
  function Collect(f: string -> Maybe, order: seq<string>): seq<Value> {
    if order == [] then []
    else (if f(order[0]).Present? then [f(order[0]).value] else []) + Collect(f, order[1..])
  }

  function Found(f: string -> Maybe, order: seq<string>): (r: seq<string>)
    ensures forall x :: x in r <==> x in order && f(x).Present?
  {
    if order == [] then []
    else (if f(order[0]).Present? then [order[0]] else []) + Found(f, order[1..])
  }

  ghost predicate FindsIds(f: string -> Maybe, key: string) {
    forall id | f(id).Present? :: HasId(f(id).value, key, id)
  }

  lemma {:induction false} CollectedLookup(f: string -> Maybe, key: string, order: seq<string>, id: string)
    requires FindsIds(f, key)
    ensures Lookup(Collect(f, order), key, id) == if id in order then f(id) else Missing
  {
    if order != [] {
      var v, rest := f(order[0]), Collect(f, order[1..]);
      CollectedLookup(f, key, order[1..], id);
      assert order == [order[0]] + order[1..];
      assert Collect(f, order) == (if v.Present? then [v.value] else []) + rest;
      if v.Present? {
        assert HasId(v.value, key, order[0]);
        ConsLookup(v.value, rest, key, id);
        assert Collect(f, order) == [v.value] + rest;
      } else {
        assert Collect(f, order) == rest;
      }
    }
  }

  lemma {:induction false} CollectedIds(f: string -> Maybe, key: string, order: seq<string>)
    requires Distinct(order) && FindsIds(f, key)
    ensures KeyedBy(Collect(f, order), key)
    ensures Ids(Collect(f, order), key) == Found(f, order)
  {
    if order != [] {
      var v, rest := f(order[0]), Collect(f, order[1..]);
      CollectedIds(f, key, order[1..]);
      assert order[0] !in order[1..];
      if v.Present? {
        ConsKeyed(v.value, rest, key);
        ConsIds(v.value, rest, key);
      }
    }
  }

  ghost function Items(b: seq<Value>, u: seq<Value>, p: seq<Value>, key: string): string -> Maybe {
    id => MergeItem(b, u, p, key, id)
  }

  lemma {:induction false} MergeOrderCollects(b: seq<Value>, u: seq<Value>, p: seq<Value>, key: string, order: seq<string>)
    ensures MergeOrder(b, u, p, key, order) == Collect(Items(b, u, p, key), order)
  {
    if order != [] {
      MergeOrderCollects(b, u, p, key, order[1..]);
    }
  }

  /** The merged array is identified by the same field and holds, under every id, the merged item. */
  lemma MergedArray(b: seq<Value>, u: seq<Value>, p: seq<Value>, key: string)
    requires ArrayKey([b, u, p]) == Some(key)
    ensures var r := MergeItems(b, u, p);
      && KeyedBy(r, key)
      && Ids(r, key) == Found(Items(b, u, p, key), Order(u, p, key))
      && r == Collect(Items(b, u, p, key), Order(u, p, key))
      && forall id :: Lookup(r, key, id) == MergeItem(b, u, p, key, id)
  {
    ArrayKeySound([b, u, p]);
    assert b in [b, u, p] && u in [b, u, p] && p in [b, u, p];
    var f := Items(b, u, p, key);
    forall id | f(id).Present? ensures HasId(f(id).value, key, id) {
      MergedItemId(b, u, p, key, id);
    }
    OrderFacts(u, p, key);
    CollectedIds(f, key, Order(u, p, key));
    forall id ensures Lookup(Collect(f, Order(u, p, key)), key, id) == MergeItem(b, u, p, key, id) {
      CollectedLookup(f, key, Order(u, p, key), id);
    }
    MergeOrderCollects(b, u, p, key, Order(u, p, key));
  }

  // ---------------------------------------------------------------- when the user's tree is left alone

  /** The user's tree already carries every change of the preset that it does not override. */
  predicate Settled(b: Maybe, u: Maybe, p: Maybe)
    decreases u.Present?, ValueOf(u)
  {
    || u == p
    || p == b
    || (&& u != b
        && (ObjectNode(b, u, p) ==>
              forall k | k in Keys(b, u, p) :: Settled(Field(b, k), Field(u, k), Field(p, k)))
        && (ArrayNode(b, u, p) ==> SettledItems(ItemsOf(b), ItemsOf(u), ItemsOf(p))))
  }

  predicate SettledItems(b: seq<Value>, u: seq<Value>, p: seq<Value>)
    decreases true, Arr(u), 2
  {
    match ArrayKey([b, u, p])
    case None =>
      (forall v | v in u :: v in b ==> v in p) && (forall v | v in p :: v in b || v in u)
    case Some(key) =>
      forall id | id in Order(u, p, key) :: SettledItem(b, u, p, key, id)
  }

  predicate SettledItem(b: seq<Value>, u: seq<Value>, p: seq<Value>, key: string, id: string)
    decreases true, Arr(u), 0
  {
    var bv, uv, pv := Lookup(b, key, id), Lookup(u, key, id), Lookup(p, key, id);
    AddedTwice(bv, uv, pv) || Settled(bv, uv, pv)
  }

  lemma MergedField(b: Maybe, u: Maybe, p: Maybe, k: string)
    requires ObjectNode(b, u, p)
    ensures Field(Merge(b, u, p), k) == Merge(Field(b, k), Field(u, k), Field(p, k))
  {
  }

  lemma EmptyIfNothingIn<T>(s: seq<T>)
    ensures s == [] || exists v :: v in s
  {
    if s != [] {
      assert s[0] in s;
    }
  }

  lemma KeptAll(u: seq<Value>, b: seq<Value>, p: seq<Value>)
    ensures |Kept(u, b, p)| <= |u|
    ensures (forall v | v in u :: v in b ==> v in p) ==> Kept(u, b, p) == u
  {
  }

  lemma UnkeyedSettled(b: seq<Value>, u: seq<Value>, p: seq<Value>)
    requires ArrayKey([b, u, p]).None?
    ensures MergeItems(b, u, p) == u <==> SettledItems(b, u, p)
  {
    var kept := Kept(u, b, p);
    var added := Added(p, b, kept);
    KeptAll(u, b, p);
    EmptyIfNothingIn(added);
    forall v | v in u && v in b && v !in p ensures v !in kept + added {
    }
    forall v | v in p && v !in b && v !in u ensures v in kept + added {
    }
  }

  lemma {:induction false} FoundAll(f: string -> Maybe, a: seq<string>, c: seq<string>)
    requires forall id | id in a :: f(id).Present?
    requires forall id | id in c :: f(id).Missing?
    ensures Found(f, a + c) == a
  {
    if a != [] {
      FoundAll(f, a[1..], c);
      assert (a + c)[1..] == a[1..] + c;
    } else if c != [] {
      FoundAll(f, a, c[1..]);
      assert (a + c)[1..] == a + c[1..];
    }
  }

  /** An identified array is left alone exactly when every item is. */
  lemma KeyedSettled(b: seq<Value>, u: seq<Value>, p: seq<Value>, key: string)
    requires ArrayKey([b, u, p]) == Some(key)
    ensures MergeItems(b, u, p) == u <==>
            forall id | id in Order(u, p, key) :: MergeItem(b, u, p, key, id) == Lookup(u, key, id)
  {
    MergedArray(b, u, p, key);
    ArrayKeySound([b, u, p]);
    assert b in [b, u, p] && u in [b, u, p] && p in [b, u, p];
    if forall id | id in Order(u, p, key) :: MergeItem(b, u, p, key, id) == Lookup(u, key, id) {
      var f := Items(b, u, p, key);
      forall id | id in Ids(u, key) ensures f(id).Present? {
        LookupIds(u, key, id);
        assert id in Order(u, p, key);
      }
      forall id | id in Without(Ids(p, key), Ids(u, key)) ensures f(id).Missing? {
        LookupIds(u, key, id);
        assert id in Order(u, p, key);
      }
      FoundAll(f, Ids(u, key), Without(Ids(p, key), Ids(u, key)));
      forall id | id in Ids(u, key) ensures MergeItem(b, u, p, key, id) == Lookup(u, key, id) {
        assert id in Order(u, p, key);
      }
      SameLookupsSameItems(MergeItems(b, u, p), u, key);
    }
  }

  /** The merge leaves the user's tree as it is exactly when that tree is settled. */
  lemma {:induction false} SettledExact(b: Maybe, u: Maybe, p: Maybe)
    ensures Merge(b, u, p) == u <==> Settled(b, u, p)
    decreases u.Present?, ValueOf(u)
  {
    if ObjectNode(b, u, p) {
      var m := Merge(b, u, p);
      forall k ensures Merge(Field(b, k), Field(u, k), Field(p, k)) == Field(u, k) <==>
                       Settled(Field(b, k), Field(u, k), Field(p, k)) {
        SettledExact(Field(b, k), Field(u, k), Field(p, k));
      }
      SameFields(m, u, Keys(b, u, p));
      forall k ensures Field(m, k) == Merge(Field(b, k), Field(u, k), Field(p, k)) {
        MergedField(b, u, p, k);
      }
    } else if ArrayNode(b, u, p) {
      SettledItemsExact(ItemsOf(b), ItemsOf(u), ItemsOf(p));
    }
  }

  lemma SameFields(m: Maybe, u: Maybe, keys: set<string>)
    requires m.Present? && m.value.Obj? && u.Present? && u.value.Obj?
    requires FieldsOf(m).Keys <= keys && FieldsOf(u).Keys <= keys
    ensures m == u <==> forall k | k in keys :: Field(m, k) == Field(u, k)
  {
    if forall k | k in keys :: Field(m, k) == Field(u, k) {
      var x, y := m.value.fields, u.value.fields;
      forall k ensures k in x <==> k in y {
        if k in keys { assert Field(m, k) == Field(u, k); }
      }
      forall k | k in x ensures x[k] == y[k] { assert Field(m, k) == Field(u, k); }
      assert x == y;
    }
  }

  lemma {:induction false} SettledItemsExact(b: seq<Value>, u: seq<Value>, p: seq<Value>)
    ensures MergeItems(b, u, p) == u <==> SettledItems(b, u, p)
    decreases true, Arr(u), 2
  {
    match ArrayKey([b, u, p])
    case None => UnkeyedSettled(b, u, p);
    case Some(key) =>
      KeyedSettled(b, u, p, key);
      forall id ensures MergeItem(b, u, p, key, id) == Lookup(u, key, id) <==> SettledItem(b, u, p, key, id) {
        SettledExact(Lookup(b, key, id), Lookup(u, key, id), Lookup(p, key, id));
      }
  }

  // ---------------------------------------------------------------- merging twice

  /** A merge never recreates the base once a side has moved away from it. */
  lemma {:induction false} BackToBase(b: Maybe, u: Maybe, p: Maybe)
    requires Merge(b, u, p) == b
    ensures u == b && p == b
    decreases u.Present?, ValueOf(u)
  {
    if ObjectNode(b, u, p) {
      forall k ensures Field(u, k) == Field(b, k) && Field(p, k) == Field(b, k) {
        MergedField(b, u, p, k);
        BackToBase(Field(b, k), Field(u, k), Field(p, k));
      }
      SameFields(u, b, Keys(b, u, p));
    } else if ArrayNode(b, u, p) {
      BackToBaseItems(ItemsOf(b), ItemsOf(u), ItemsOf(p));
    }
  }

  lemma {:induction false} BackToBaseItems(b: seq<Value>, u: seq<Value>, p: seq<Value>)
    requires MergeItems(b, u, p) == b
    ensures u == b
    decreases true, Arr(u), 2
  {
    match ArrayKey([b, u, p])
    case None =>
      var kept := Kept(u, b, p);
      var added := Added(p, b, kept);
      KeptAll(u, b, p);
      assert forall v :: v in kept || v in added <==> v in kept + added;
      EmptyIfNothingIn(added);
    case Some(key) =>
      MergedArray(b, u, p, key);
      ArrayKeySound([b, u, p]);
      assert b in [b, u, p] && u in [b, u, p] && p in [b, u, p];
      forall id ensures Lookup(u, key, id) == Lookup(b, key, id) == Lookup(p, key, id) {
        assert Lookup(b, key, id) == MergeItem(b, u, p, key, id);
        BackToBase(Lookup(b, key, id), Lookup(u, key, id), Lookup(p, key, id));
      }
      forall id | id in Without(Ids(p, key), Ids(u, key)) ensures Items(b, u, p, key)(id).Missing? {
        LookupIds(u, key, id);
        LookupIds(p, key, id);
      }
      forall id | id in Ids(u, key) ensures Items(b, u, p, key)(id).Present? {
        LookupIds(u, key, id);
        assert Lookup(b, key, id) == MergeItem(b, u, p, key, id);
      }
      FoundAll(Items(b, u, p, key), Ids(u, key), Without(Ids(p, key), Ids(u, key)));
      SameLookupsSameItems(u, b, key);
  }

  lemma RemergeSame(b: seq<Value>, p: seq<Value>)
    ensures MergeItems(b, p, p) == p
  {
    SettledItemsExact(b, p, p);
    match ArrayKey([b, p, p])
    case None =>
    case Some(key) =>
      forall id ensures SettledItem(b, p, p, key, id) {
      }
  }

  /** An array that no field identified merges to a fixpoint, whichever field identifies the result. */
  lemma UnkeyedRemerge(b: seq<Value>, u: seq<Value>, p: seq<Value>)
    requires ArrayKey([b, u, p]).None?
    ensures var m := MergeItems(b, u, p); MergeItems(b, m, p) == m
  {
    var m := MergeItems(b, u, p);
    SettledItemsExact(b, m, p);
    match ArrayKey([b, m, p])
    case None =>
    case Some(key) =>
      forall id | id in Order(m, p, key) ensures SettledItem(b, m, p, key, id) {
        UnkeyedItem(b, u, p, key, id);
      }
  }

  lemma UnkeyedItem(b: seq<Value>, u: seq<Value>, p: seq<Value>, key: string, id: string)
    requires ArrayKey([b, u, p]).None?
    requires ArrayKey([b, MergeItems(b, u, p), p]) == Some(key)
    ensures SettledItem(b, MergeItems(b, u, p), p, key, id)
  {
    var m := MergeItems(b, u, p);
    ArrayKeySound([b, m, p]);
    assert b in [b, m, p] && m in [b, m, p] && p in [b, m, p];
    var bv, mv, pv := Lookup(b, key, id), Lookup(m, key, id), Lookup(p, key, id);
    if pv.Present? {
      if pv.value in b {
        UniqueId(b, key, pv.value);
      } else {
        assert pv.value in m;
        UniqueId(m, key, pv.value);
      }
    } else if mv.Present? && mv == bv {
      assert mv.value in b && mv.value in p;
      UniqueId(p, key, mv.value);
    }
  }

  lemma UniqueId(items: seq<Value>, key: string, v: Value)
    requires KeyedBy(items, key) && v in items
    ensures Lookup(items, key, IdOf(v, key)) == Present(v)
  {
    var i :| 0 <= i < |items| && items[i] == v;
    LookupAt(items, key, i);
  }
}
