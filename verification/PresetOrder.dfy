/** How the items of a merged array stand, told by their places in the three arrays, and which field
    identifies items, told of their strings. */
module PresetOrder {
  import opened Options
  import opened PresetTree
  import opened PresetMerge
  import opened Selections
  import C = PresetConflicts
  import R = PresetReports

  // ---------------------------------------------------------------- the identifying field

  /** Every item is an object with a string under the field, and no two have the same one. */
  predicate Told(items: seq<Value>, key: string) {
    && (forall i | 0 <= i < |items| :: items[i].Obj? && key in items[i].fields && items[i].fields[key].Str?)
    && (forall i, j | 0 <= i < j < |items| ::
          items[i].Obj? && items[j].Obj? && key in items[i].fields && key in items[j].fields ==>
          items[i].fields[key] != items[j].fields[key])
  }

  lemma ToldKeyed(items: seq<Value>, key: string)
    ensures KeyedBy(items, key) <==> Told(items, key)
  {
    if KeyedBy(items, key) {
      forall i, j | 0 <= i < j < |items| ensures items[i].fields[key] != items[j].fields[key] {
        assert Tagged(items[i], key) && Tagged(items[j], key) && IdOf(items[i], key) != IdOf(items[j], key);
      }
    }
    if Told(items, key) {
      forall i, j | 0 <= i < j < |items| ensures IdOf(items[i], key) != IdOf(items[j], key) {
        assert items[i].fields[key] != items[j].fields[key];
      }
    }
  }

  lemma ToldObjects(groups: seq<seq<Value>>, key: string)
    ensures (forall g | g in groups :: Told(g, key)) ==> AllObjects(groups) && AllKeyedBy(groups, key)
    ensures AllKeyedBy(groups, key) ==> forall g | g in groups :: Told(g, key)
  {
    forall g | g in groups ensures KeyedBy(g, key) <==> Told(g, key) { ToldKeyed(g, key); }
    if forall g | g in groups :: Told(g, key) {
      forall g, v | g in groups && v in g ensures v.Obj? {
        var i :| 0 <= i < |g| && g[i] == v;
      }
    }
  }

  /** Arrays that are not all empty are identified by the first of `tag`, `name` and `id` that tells the
      items of each of them apart, and by none if no field does. */
  lemma IdentifiedBy(groups: seq<seq<Value>>)
    ensures forall key :: ArrayKey(groups) == Some(key) <==>
      && (exists g :: g in groups && g != [])
      && (forall g | g in groups :: Told(g, key))
      && (key == "tag"
          || (key == "name" && exists g :: g in groups && !Told(g, "tag"))
          || (key == "id" && (exists g :: g in groups && !Told(g, "tag")) && exists g :: g in groups && !Told(g, "name")))
  {
    ToldObjects(groups, "tag");
    ToldObjects(groups, "name");
    ToldObjects(groups, "id");
  }

  // ---------------------------------------------------------------- places in an identified array

  /** The item has the id of some item of the array. */
  predicate Among(items: seq<Value>, key: string, v: Value) {
    exists a :: 0 <= a < |items| && IdOf(items[a], key) == IdOf(v, key)
  }

  /** Wherever the two ids stand in the array, the first stands before the second. */
  predicate Precedes(items: seq<Value>, key: string, v: Value, w: Value) {
    forall a, c | 0 <= a < |items| && 0 <= c < |items| && IdOf(items[a], key) == IdOf(v, key)
                  && IdOf(items[c], key) == IdOf(w, key) :: a < c
  }

  lemma {:induction false} FoundAt(f: string -> Maybe, order: seq<string>, i: nat, j: nat) returns (a: nat, c: nat)
    requires i < j < |Found(f, order)|
    ensures a < c < |order| && order[a] == Found(f, order)[i] && order[c] == Found(f, order)[j]
    decreases |order|
  {
    var rest := Found(f, order[1..]);
    var skip := if f(order[0]).Present? then 1 else 0;
    if i < skip {
      c := InOrder(rest, f, order[1..], j - skip);
      a, c := 0, c + 1;
    } else {
      a, c := FoundAt(f, order[1..], i - skip, j - skip);
      a, c := a + 1, c + 1;
    }
  }

  lemma InOrder(rest: seq<string>, f: string -> Maybe, order: seq<string>, j: nat) returns (c: nat)
    requires rest == Found(f, order) && j < |rest|
    ensures c < |order| && order[c] == rest[j]
  {
    assert rest[j] in rest;
    c :| 0 <= c < |order| && order[c] == rest[j];
  }

  lemma {:induction false} WithoutAt(ids: seq<string>, drop: seq<string>, i: nat, j: nat) returns (a: nat, c: nat)
    requires i < j < |Without(ids, drop)|
    ensures a < c < |ids| && ids[a] == Without(ids, drop)[i] && ids[c] == Without(ids, drop)[j]
    decreases |ids|
  {
    var rest := Without(ids[1..], drop);
    var skip := if ids[0] in drop then 0 else 1;
    if i < skip {
      assert rest[j - skip] in rest;
      c :| 0 <= c < |ids[1..]| && ids[1..][c] == rest[j - skip];
      a, c := 0, c + 1;
    } else {
      a, c := WithoutAt(ids[1..], drop, i - skip, j - skip);
      a, c := a + 1, c + 1;
    }
  }

  /** Distinct ids that stand in an order in one list precede each other in the items they are of. */
  lemma IdsPrecede(items: seq<Value>, key: string, a: nat, c: nat, v: Value, w: Value)
    requires KeyedBy(items, key) && a < c < |items|
    requires IdOf(items[a], key) == IdOf(v, key) && IdOf(items[c], key) == IdOf(w, key)
    ensures Precedes(items, key, v, w)
  {
  }

  lemma AmongIds(items: seq<Value>, key: string, v: Value)
    ensures Among(items, key, v) <==> IdOf(v, key) in Ids(items, key)
  {
    if Among(items, key, v) {
      var a :| 0 <= a < |items| && IdOf(items[a], key) == IdOf(v, key);
      assert Ids(items, key)[a] == IdOf(v, key);
    }
  }

  lemma NewPlaces(u: seq<Value>, p: seq<Value>, key: string, a: nat, c: nat, v: Value, w: Value)
    requires KeyedBy(p, key) && a < c < |Without(Ids(p, key), Ids(u, key))|
    requires var new_ := Without(Ids(p, key), Ids(u, key)); new_[a] == IdOf(v, key) && new_[c] == IdOf(w, key)
    ensures Precedes(p, key, v, w)
  {
    var x, y := WithoutAt(Ids(p, key), Ids(u, key), a, c);
    IdsPrecede(p, key, x, y, v, w);
  }

  /** An id at a place of the order is the user's up to there, and only the preset's after that. */
  lemma PlaceOf(u: seq<Value>, p: seq<Value>, key: string, a: nat, v: Value)
    requires a < |Order(u, p, key)| && Order(u, p, key)[a] == IdOf(v, key)
    ensures Among(u, key, v) <==> a < |u|
    ensures a < |u| ==> IdOf(u[a], key) == IdOf(v, key)
    ensures a >= |u| ==> Among(p, key, v)
  {
    AmongIds(u, key, v);
    AmongIds(p, key, v);
    if a < |u| {
      assert Ids(u, key)[a] == IdOf(v, key);
    } else {
      var new_ := Without(Ids(p, key), Ids(u, key));
      assert new_[a - |u|] in new_;
    }
  }

  /** The places of two ids in the order of the merge. */
  lemma OrderedPlaces(u: seq<Value>, p: seq<Value>, key: string, a: nat, c: nat, v: Value, w: Value)
    requires KeyedBy(u, key) && KeyedBy(p, key) && a < c < |Order(u, p, key)|
    requires Order(u, p, key)[a] == IdOf(v, key) && Order(u, p, key)[c] == IdOf(w, key)
    ensures Among(u, key, w) ==> Among(u, key, v) && Precedes(u, key, v, w)
    ensures !Among(u, key, v) ==> !Among(u, key, w) && Among(p, key, v) && Among(p, key, w) && Precedes(p, key, v, w)
  {
    PlaceOf(u, p, key, a, v);
    PlaceOf(u, p, key, c, w);
    if c < |u| {
      IdsPrecede(u, key, a, c, v, w);
    } else if a >= |u| {
      NewPlaces(u, p, key, a - |u|, c - |u|, v, w);
    }
  }

  /** Of two items of a merged array that a field identifies: the user's stand as the user has them, the
      preset's new ones as the preset has them, and every item the user has before every new one. */
  lemma MergedPlaces(b: seq<Value>, u: seq<Value>, p: seq<Value>, key: string, i: nat, j: nat)
    requires ArrayKey([b, u, p]) == Some(key) && i < j < |MergeItems(b, u, p)|
    ensures var v, w := MergeItems(b, u, p)[i], MergeItems(b, u, p)[j]; (
      && IdOf(v, key) != IdOf(w, key)
      && (Among(u, key, w) ==> Among(u, key, v) && Precedes(u, key, v, w))
      && (!Among(u, key, v) ==>
            && !Among(u, key, w) && Among(p, key, v) && Among(p, key, w)
            && Precedes(p, key, v, w)))
  {
    MergedArray(b, u, p, key);
    ArrayKey3(b, u, p);
    var m := MergeItems(b, u, p);
    assert Ids(m, key)[i] == IdOf(m[i], key) && Ids(m, key)[j] == IdOf(m[j], key);
    var a, c := FoundAt(Items(b, u, p, key), Order(u, p, key), i, j);
    OrderedPlaces(u, p, key, a, c, m[i], m[j]);
  }

  /** Under every id the merged array has the merge of the three items, except for an id that both sides
      added with different items: that one is the user's, and is reported as such. */
  lemma MergedItem(b: Maybe, u: Maybe, p: Maybe, key: string, id: string, rest: C.Path)
    requires u.Present? && u.value.Arr? && p.Present? && p.value.Arr? && (b.Present? ==> b.value.Arr?)
    requires u != b && p != b && u != p && ArrayKey([ItemsOf(b), ItemsOf(u), ItemsOf(p)]) == Some(key)
    ensures var bv, uv, pv := Lookup(ItemsOf(b), key, id), Lookup(ItemsOf(u), key, id), Lookup(ItemsOf(p), key, id);
      Lookup(ItemsOf(Merge(b, u, p)), key, id) ==
      if bv.Missing? && uv.Present? && pv.Present? && uv != pv then uv else Merge(bv, uv, pv)
    ensures var bv, uv, pv := Lookup(ItemsOf(b), key, id), Lookup(ItemsOf(u), key, id), Lookup(ItemsOf(p), key, id);
      C.ClashAt(b, u, p, [C.Item(key, id)] + rest) ==
      if !(bv.Missing? && uv.Present? && pv.Present? && uv != pv) then C.ClashAt(bv, uv, pv, rest)
      else if rest == [] then Some(C.Clash(C.SameArrayKeyAdded, bv, uv, pv)) else None
  {
    MergedArray(ItemsOf(b), ItemsOf(u), ItemsOf(p), key);
    R.ClashBelowItem(b, u, p, key, id, rest);
    assert Merge(b, u, p) == Present(Arr(MergeItems(ItemsOf(b), ItemsOf(u), ItemsOf(p))));
  }

  // ---------------------------------------------------------------- an array no field identifies

  /** The user's item stays unless the preset dropped it from the base. */
  function Stays(b: seq<Value>, u: seq<Value>, p: seq<Value>): nat -> bool {
    (i: nat) => i < |u| && (u[i] !in b || u[i] in p)
  }

  /** The preset's item is new: not in the base, not the user's, and not one the preset had before. */
  function Comes(b: seq<Value>, u: seq<Value>, p: seq<Value>): nat -> bool {
    (i: nat) => i < |p| && p[i] !in b && p[i] !in u && p[i] !in p[..i]
  }

  lemma KeptHead(u: seq<Value>, b: seq<Value>, p: seq<Value>)
    requires u != []
    ensures Kept(u, b, p) == (if u[0] in b && u[0] !in p then [] else [u[0]]) + Kept(u[1..], b, p)
  {
  }

  lemma {:induction false} KeptPush(u: seq<Value>, v: Value, b: seq<Value>, p: seq<Value>)
    ensures Kept(u + [v], b, p) == Kept(u, b, p) + (if v in b && v !in p then [] else [v])
  {
    if u == [] {
      assert [] + [v] == [v] && Kept([], b, p) == [] && [v][1..] == [];
    } else {
      var whole := u + [v];
      assert whole[1..] == u[1..] + [v] && whole[0] == u[0];
      KeptPush(u[1..], v, b, p);
      KeptHead(whole, b, p);
      KeptHead(u, b, p);
    }
  }

  lemma AddedHead(p: seq<Value>, b: seq<Value>, seen: seq<Value>)
    requires p != []
    ensures Added(p, b, seen) == if p[0] in b || p[0] in seen then Added(p[1..], b, seen)
                                 else [p[0]] + Added(p[1..], b, seen + [p[0]])
  {
  }

  lemma {:induction false} AddedPush(p: seq<Value>, v: Value, b: seq<Value>, seen: seq<Value>)
    ensures Added(p + [v], b, seen) == Added(p, b, seen) + (if v in b || v in seen || v in p then [] else [v])
    decreases |p|
  {
    var whole := p + [v];
    AddedHead(whole, b, seen);
    if p == [] {
      assert whole[0] == v && whole[1..] == [];
    } else {
      assert whole[1..] == p[1..] + [v] && whole[0] == p[0];
      AddedHead(p, b, seen);
      assert v in p <==> v == p[0] || v in p[1..];
      if p[0] in b || p[0] in seen {
        AddedPush(p[1..], v, b, seen);
      } else {
        AddedPush(p[1..], v, b, seen + [p[0]]);
      }
    }
  }

  lemma KeptOne(b: seq<Value>, u: seq<Value>, p: seq<Value>, n: nat, stays: bool)
    requires n < |u| && stays == Stays(b, u, p)(n)
    ensures Kept(u[..n + 1], b, p) == Kept(u[..n], b, p) + (if stays then [u[n]] else [])
  {
    assert u[..n + 1] == u[..n] + [u[n]];
    KeptPush(u[..n], u[n], b, p);
  }

  lemma {:induction false} KeptPlaces(b: seq<Value>, u: seq<Value>, p: seq<Value>, n: nat)
    requires n <= |u|
    ensures Kept(u[..n], b, p) == Picked(u, Places(n, Stays(b, u, p)))
  {
    if n > 0 {
      var stays := Stays(b, u, p);
      KeptPlaces(b, u, p, n - 1);
      KeptOne(b, u, p, n - 1, stays(n - 1));
      PickedPush(u, n - 1, stays);
    } else {
      assert u[..0] == [];
    }
  }

  lemma {:induction false} AddedPlaces(b: seq<Value>, u: seq<Value>, p: seq<Value>, seen: seq<Value>, n: nat)
    requires n <= |p| && forall v | v in p && v !in b :: v in seen <==> v in u
    ensures Added(p[..n], b, seen) == Picked(p, Places(n, Comes(b, u, p)))
  {
    if n > 0 {
      AddedPlaces(b, u, p, seen, n - 1);
      assert p[..n] == p[..n - 1] + [p[n - 1]];
      AddedPush(p[..n - 1], p[n - 1], b, seen);
      PickedPush(p, n - 1, Comes(b, u, p));
      assert p[n - 1] in p;
    } else {
      assert p[..0] == [];
    }
  }

  /** An array no field identifies merges to the user's items without those the preset dropped, each as
      often as the user has it and in the user's order, and then the preset's new ones, each once and
      in the preset's order. */
  lemma UnkeyedPlaces(b: seq<Value>, u: seq<Value>, p: seq<Value>)
    requires ArrayKey([b, u, p]).None?
    ensures MergeItems(b, u, p) ==
            Picked(u, Places(|u|, Stays(b, u, p))) + Picked(p, Places(|p|, Comes(b, u, p)))
  {
    KeptPlaces(b, u, p, |u|);
    AddedPlaces(b, u, p, Kept(u, b, p), |p|);
    assert u[..|u|] == u && p[..|p|] == p;
  }
}
