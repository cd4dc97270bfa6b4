/** When merging into an already merged tree changes nothing, told of the trees of the first merge and
    not of its result: the second merge may pair the items of an array by another field, and what it
    then compares is worked out from the three trees. */
module PresetAgain {
  import opened Options
  import opened PresetTree
  import opened PresetMerge

  // ---------------------------------------------------------------- the merged tree, known by the three

  /** The merge gives `x`. */
  predicate Yields(b: Maybe, u: Maybe, p: Maybe, x: Maybe)
    decreases u.Present?, ValueOf(u)
  {
    if u == b then p == x
    else if ObjectNode(b, u, p) then
      && x.Present? && x.value.Obj?
      && forall k | k in Keys(b, u, p) + FieldsOf(x).Keys :: Yields(Field(b, k), Field(u, k), Field(p, k), Field(x, k))
    else if ArrayNode(b, u, p) then
      x.Present? && x.value.Arr? && YieldsItems(ItemsOf(b), ItemsOf(u), ItemsOf(p), x.value.items)
    else u == x
  }

  predicate YieldsItems(b: seq<Value>, u: seq<Value>, p: seq<Value>, x: seq<Value>)
    decreases true, Arr(u), 2
  {
    match ArrayKey([b, u, p])
    case None => Unpaired(b, u, p) == x
    case Some(key) =>
      && KeyedBy(x, key) && Ids(x, key) == Survivors(b, u, p, key, Order(u, p, key))
      && forall id | id in Order(u, p, key) && Survives(b, u, p, key, id) ::
           YieldsItem(b, u, p, key, id, Lookup(x, key, id))
  }

  predicate YieldsItem(b: seq<Value>, u: seq<Value>, p: seq<Value>, key: string, id: string, x: Maybe)
    decreases true, Arr(u), 0
  {
    var bv, uv, pv := Lookup(b, key, id), Lookup(u, key, id), Lookup(p, key, id);
    if AddedTwice(bv, uv, pv) then uv == x else Yields(bv, uv, pv, x)
  }

  /** Unidentified arrays: the user's items that stay, then the preset's new ones. */
  function Unpaired(b: seq<Value>, u: seq<Value>, p: seq<Value>): seq<Value> {
    var kept := Kept(u, b, p);
    kept + Added(p, b, kept)
  }

  /** An item is left under the id: the user has it and has changed it or the preset has it too, or
      the preset alone has it. */
  predicate Survives(b: seq<Value>, u: seq<Value>, p: seq<Value>, key: string, id: string) {
    var bv, uv, pv := Lookup(b, key, id), Lookup(u, key, id), Lookup(p, key, id);
    if uv.Present? then pv.Present? || uv != bv else bv.Missing? && pv.Present?
  }

  function Survivors(b: seq<Value>, u: seq<Value>, p: seq<Value>, key: string, order: seq<string>): (r: seq<string>)
    ensures forall id :: id in r <==> id in order && Survives(b, u, p, key, id)
  {
    if order == [] then []
    else (if Survives(b, u, p, key, order[0]) then [order[0]] else []) + Survivors(b, u, p, key, order[1..])
  }

  lemma SurvivesExact(b: seq<Value>, u: seq<Value>, p: seq<Value>, key: string, id: string)
    ensures MergeItem(b, u, p, key, id).Present? <==> Survives(b, u, p, key, id)
  {
  }

  lemma {:induction false} SurvivorsFound(b: seq<Value>, u: seq<Value>, p: seq<Value>, key: string, order: seq<string>)
    ensures Found(Items(b, u, p, key), order) == Survivors(b, u, p, key, order)
  {
    if order != [] {
      SurvivesExact(b, u, p, key, order[0]);
      SurvivorsFound(b, u, p, key, order[1..]);
    }
  }

  /** The merged array has one item for every survivor, in order. */
  lemma MergedSurvivors(b: seq<Value>, u: seq<Value>, p: seq<Value>, key: string)
    requires ArrayKey([b, u, p]) == Some(key)
    ensures var m, s := MergeItems(b, u, p), Survivors(b, u, p, key, Order(u, p, key)); (
      && KeyedBy(m, key) && Ids(m, key) == s && |m| == |s| && Distinct(s)
      && forall i | 0 <= i < |s| :: MergeItem(b, u, p, key, s[i]) == Present(m[i]))
    ensures forall id :: Lookup(MergeItems(b, u, p), key, id) == MergeItem(b, u, p, key, id)
  {
    var m, s := MergeItems(b, u, p), Survivors(b, u, p, key, Order(u, p, key));
    MergedArray(b, u, p, key);
    SurvivorsFound(b, u, p, key, Order(u, p, key));
    LookupIds(m, key, "");
    forall i | 0 <= i < |s| ensures MergeItem(b, u, p, key, s[i]) == Present(m[i]) {
      LookupAt(m, key, i);
    }
  }

  /** The merge gives exactly the tree it yields. */
  lemma {:induction false} YieldsExact(b: Maybe, u: Maybe, p: Maybe, x: Maybe)
    ensures Merge(b, u, p) == x <==> Yields(b, u, p, x)
    decreases u.Present?, ValueOf(u)
  {
    if ObjectNode(b, u, p) {
      if x.Present? && x.value.Obj? {
        var m := Merge(b, u, p);
        forall k ensures Field(m, k) == Field(x, k) <==> Yields(Field(b, k), Field(u, k), Field(p, k), Field(x, k)) {
          MergedField(b, u, p, k);
          YieldsExact(Field(b, k), Field(u, k), Field(p, k), Field(x, k));
        }
        SameFields(m, x, Keys(b, u, p) + FieldsOf(x).Keys);
      }
    } else if ArrayNode(b, u, p) {
      if x.Present? && x.value.Arr? {
        YieldsItemsExact(ItemsOf(b), ItemsOf(u), ItemsOf(p), x.value.items);
      }
    }
  }

  lemma {:induction false} YieldsItemsExact(b: seq<Value>, u: seq<Value>, p: seq<Value>, x: seq<Value>)
    ensures MergeItems(b, u, p) == x <==> YieldsItems(b, u, p, x)
    decreases true, Arr(u), 2
  {
    match ArrayKey([b, u, p])
    case None =>
    case Some(key) =>
      forall id ensures MergeItem(b, u, p, key, id) == Lookup(x, key, id) <==> YieldsItem(b, u, p, key, id, Lookup(x, key, id)) {
        YieldsExact(Lookup(b, key, id), Lookup(u, key, id), Lookup(p, key, id), Lookup(x, key, id));
      }
      YieldsKeyed(b, u, p, key, x);
  }

  lemma YieldsKeyed(b: seq<Value>, u: seq<Value>, p: seq<Value>, key: string, x: seq<Value>)
    requires ArrayKey([b, u, p]) == Some(key)
    requires forall id :: MergeItem(b, u, p, key, id) == Lookup(x, key, id) <==> YieldsItem(b, u, p, key, id, Lookup(x, key, id))
    ensures MergeItems(b, u, p) == x <==> YieldsItems(b, u, p, x)
  {
    MergedSurvivors(b, u, p, key);
    if YieldsItems(b, u, p, x) {
      SameLookupsSameItems(MergeItems(b, u, p), x, key);
    }
  }

  // ---------------------------------------------------------------- the field that identifies the merged items

  /** What the merged item holds under a field that may identify it: the preset's where the user kept
      the base's, and otherwise the user's. */
  function TagAt(b: seq<Value>, u: seq<Value>, p: seq<Value>, key: string, id: string, k: string): Maybe {
    var bv, uv, pv := Lookup(b, key, id), Lookup(u, key, id), Lookup(p, key, id);
    if uv.Present? && (bv.Missing? || pv.Missing?) then Field(uv, k)
    else if Field(uv, k) == Field(bv, k) then Field(pv, k) else Field(uv, k)
  }

  predicate IsTag(m: Maybe) {
    m.Present? && m.value.Str?
  }

  lemma TagMerged(b: seq<Value>, u: seq<Value>, p: seq<Value>, key: string, id: string, k: string)
    requires Survives(b, u, p, key, id)
    ensures var m := MergeItem(b, u, p, key, id); (
      && m.Present?
      && (Tagged(m.value, k) <==> IsTag(TagAt(b, u, p, key, id, k)))
      && (Tagged(m.value, k) ==> Field(m, k) == TagAt(b, u, p, key, id, k)))
  {
    var bv, uv, pv := Lookup(b, key, id), Lookup(u, key, id), Lookup(p, key, id);
    SurvivesExact(b, u, p, key, id);
    if ObjectNode(bv, uv, pv) && !AddedTwice(bv, uv, pv) {
      MergedField(bv, uv, pv, k);
    }
  }

  /** The survivors all have a string under the field, and no two share it. */
  predicate Retagged(b: seq<Value>, u: seq<Value>, p: seq<Value>, key: string, k: string) {
    var s := Survivors(b, u, p, key, Order(u, p, key));
    && (forall i | 0 <= i < |s| :: IsTag(TagAt(b, u, p, key, s[i], k)))
    && (forall i, j | 0 <= i < j < |s| :: TagAt(b, u, p, key, s[i], k) != TagAt(b, u, p, key, s[j], k))
  }

  lemma RetaggedExact(b: seq<Value>, u: seq<Value>, p: seq<Value>, key: string, k: string)
    requires ArrayKey([b, u, p]) == Some(key)
    ensures KeyedBy(MergeItems(b, u, p), k) <==> Retagged(b, u, p, key, k)
  {
    var m, s := MergeItems(b, u, p), Survivors(b, u, p, key, Order(u, p, key));
    MergedSurvivors(b, u, p, key);
    forall i | 0 <= i < |s|
      ensures Tagged(m[i], k) <==> IsTag(TagAt(b, u, p, key, s[i], k))
      ensures Tagged(m[i], k) ==> Present(Str(IdOf(m[i], k))) == TagAt(b, u, p, key, s[i], k) {
      assert s[i] in s;
      TagMerged(b, u, p, key, s[i], k);
    }
  }

  /** The field that identifies the items when the merged array is merged again, with another base and
      another preset. */
  function SecondKey(b': seq<Value>, b: seq<Value>, u: seq<Value>, p: seq<Value>, p': seq<Value>, key: string): Option<string> {
    if b' == [] && p' == [] && Survivors(b, u, p, key, Order(u, p, key)) == [] then None
    else if Pairs(b', b, u, p, p', key, "tag") then Some("tag")
    else if Pairs(b', b, u, p, p', key, "name") then Some("name")
    else if Pairs(b', b, u, p, p', key, "id") then Some("id")
    else None
  }

  predicate Pairs(b': seq<Value>, b: seq<Value>, u: seq<Value>, p: seq<Value>, p': seq<Value>, key: string, k: string) {
    KeyedBy(b', k) && KeyedBy(p', k) && Retagged(b, u, p, key, k)
  }

  lemma SecondKeyExact(b': seq<Value>, b: seq<Value>, u: seq<Value>, p: seq<Value>, p': seq<Value>, key: string)
    requires ArrayKey([b, u, p]) == Some(key)
    ensures ArrayKey([b', MergeItems(b, u, p), p']) == SecondKey(b', b, u, p, p', key)
  {
    var m := MergeItems(b, u, p);
    MergedSurvivors(b, u, p, key);
    ArrayKey3(b', m, p');
    RetaggedExact(b, u, p, key, "tag");
    RetaggedExact(b, u, p, key, "name");
    RetaggedExact(b, u, p, key, "id");
  }

  // ---------------------------------------------------------------- settled arrays, id by id

  lemma SettledPresent(b: Maybe, u: Maybe, p: Maybe)
    requires u.Present?
    ensures AddedTwice(b, u, p) || Settled(b, u, p) <==> (b.Missing? && p.Present?) || Settled(b, u, p)
  {
  }

  /** An item that only the preset has under an id is settled when the base has the id too. */
  lemma SettledWithout(b: seq<Value>, m: seq<Value>, p: seq<Value>, k: string, t: string)
    requires KeyedBy(b, k) && KeyedBy(m, k) && KeyedBy(p, k) && t in Ids(p, k) && t !in Ids(m, k)
    ensures SettledItem(b, m, p, k, t) <==> t in Ids(b, k)
  {
    LookupIds(b, k, t);
    LookupIds(m, k, t);
    LookupIds(p, k, t);
  }

  /** An identified array is settled when each of its items is, and the preset has no other new item. */
  lemma SettledByIds(b: seq<Value>, m: seq<Value>, p: seq<Value>, k: string)
    requires ArrayKey([b, m, p]) == Some(k)
    ensures SettledItems(b, m, p) <==>
            && (forall t | t in Ids(m, k) :: SettledItem(b, m, p, k, t))
            && (forall t | t in Ids(p, k) :: t in Ids(b, k) || t in Ids(m, k))
  {
    ArrayKey3(b, m, p);
    forall t | t in Ids(p, k) && t !in Ids(m, k) ensures SettledItem(b, m, p, k, t) <==> t in Ids(b, k) {
      SettledWithout(b, m, p, k, t);
    }
    assert forall t :: t in Order(m, p, k) <==> t in Ids(m, k) || t in Ids(p, k);
  }

  /** The ids of an identified array are those of its values. */
  lemma ItemsById(m: seq<Value>, k: string)
    requires KeyedBy(m, k)
    ensures forall t :: t in Ids(m, k) <==> exists v :: v in m && HasId(v, k, t)
  {
    forall t ensures t in Ids(m, k) <==> exists v :: v in m && HasId(v, k, t) {
      if t in Ids(m, k) {
        var i :| 0 <= i < |m| && Ids(m, k)[i] == t;
        assert m[i] in m && HasId(m[i], k, t);
      }
      if v :| v in m && HasId(v, k, t) {
        var i :| 0 <= i < |m| && m[i] == v;
        assert Ids(m, k)[i] == t;
      }
    }
  }

  /** The value is settled against the items that share its id. */
  predicate SettledValue(b: seq<Value>, p: seq<Value>, k: string, v: Value) {
    var bt, pt := Lookup(b, k, IdOf(v, k)), Lookup(p, k, IdOf(v, k));
    (bt.Missing? && pt.Present?) || Settled(bt, Present(v), pt)
  }

  lemma SettledValueExact(b: seq<Value>, m: seq<Value>, p: seq<Value>, k: string, v: Value)
    requires KeyedBy(m, k) && v in m
    ensures SettledItem(b, m, p, k, IdOf(v, k)) <==> SettledValue(b, p, k, v)
  {
    UniqueId(m, k, v);
    SettledPresent(Lookup(b, k, IdOf(v, k)), Present(v), Lookup(p, k, IdOf(v, k)));
  }

  /** An identified array is settled when each of its values is, and the preset has no other new item. */
  lemma SettledByValues(b: seq<Value>, m: seq<Value>, p: seq<Value>, k: string)
    requires ArrayKey([b, m, p]) == Some(k)
    ensures SettledItems(b, m, p) <==>
            && (forall v | v in m :: SettledValue(b, p, k, v))
            && (forall t | t in Ids(p, k) :: t in Ids(b, k) || exists v :: v in m && HasId(v, k, t))
  {
    SettledByIds(b, m, p, k);
    ArrayKey3(b, m, p);
    ItemsById(m, k);
    forall v | v in m ensures SettledItem(b, m, p, k, IdOf(v, k)) <==> SettledValue(b, p, k, v) {
      SettledValueExact(b, m, p, k, v);
    }
  }

  // ---------------------------------------------------------------- arrays that no field identified

  /** The merge leaves the value: the user has it and the preset did not drop it, or the preset added it. */
  predicate Left(b: seq<Value>, u: seq<Value>, p: seq<Value>, v: Value) {
    (v in u && !(v in b && v !in p)) || (v in p && v !in b)
  }

  /** The values that are left all have a string under the field, and no two of them share it. */
  predicate LeftTagged(b: seq<Value>, u: seq<Value>, p: seq<Value>, k: string) {
    && (forall v | v in u + p && Left(b, u, p, v) :: Tagged(v, k))
    && (forall i, j | 0 <= i < j < |u| && Left(b, u, p, u[i]) && Left(b, u, p, u[j]) :: IdOf(u[i], k) != IdOf(u[j], k))
    && (forall v, w | v in u + p && Left(b, u, p, v) && w in p && w !in b && w !in u && v != w :: IdOf(v, k) != IdOf(w, k))
  }

  lemma KeyedJoin(x: seq<Value>, y: seq<Value>, k: string)
    ensures KeyedBy(x + y, k) <==> KeyedBy(x, k) && KeyedBy(y, k) && forall v, w | v in x && w in y :: IdOf(v, k) != IdOf(w, k)
  {
    var all := x + y;
    if KeyedBy(all, k) {
      forall i | 0 <= i < |y| ensures y[i] == all[|x| + i] {
      }
      forall i, j | 0 <= i < j < |y| ensures IdOf(y[i], k) != IdOf(y[j], k) {
        assert IdOf(all[|x| + i], k) != IdOf(all[|x| + j], k);
      }
      forall i | 0 <= i < |x| ensures x[i] == all[i] {
      }
      forall v, w | v in x && w in y ensures IdOf(v, k) != IdOf(w, k) {
        var i :| 0 <= i < |x| && x[i] == v;
        var j :| 0 <= j < |y| && y[j] == w;
        assert IdOf(all[i], k) != IdOf(all[|x| + j], k);
      }
    }
  }

  lemma {:induction false} KeptKeyed(u: seq<Value>, b: seq<Value>, p: seq<Value>, k: string)
    ensures KeyedBy(Kept(u, b, p), k) <==>
            && (forall v | v in Kept(u, b, p) :: Tagged(v, k))
            && (forall i, j | 0 <= i < j < |u| && u[i] in Kept(u, b, p) && u[j] in Kept(u, b, p) :: IdOf(u[i], k) != IdOf(u[j], k))
  {
    if u != [] {
      var head, rest := (if u[0] in b && u[0] !in p then [] else [u[0]]), Kept(u[1..], b, p);
      KeptKeyed(u[1..], b, p, k);
      KeyedJoin(head, rest, k);
      forall v ensures v in Kept(u, b, p) && v in u[1..] <==> v in rest {
      }
      KeptPairs(u, Kept(u, b, p), rest, k);
    }
  }

  /** Pairs of a list are pairs of its rest, or begin with its head. */
  lemma KeptPairs(u: seq<Value>, kept: seq<Value>, rest: seq<Value>, k: string)
    requires u != [] && forall v :: v in kept && v in u[1..] <==> v in rest
    ensures (forall i, j | 0 <= i < j < |u| && u[i] in kept && u[j] in kept :: IdOf(u[i], k) != IdOf(u[j], k)) <==>
            && (forall i, j | 0 <= i < j < |u[1..]| && u[1..][i] in rest && u[1..][j] in rest ::
                  IdOf(u[1..][i], k) != IdOf(u[1..][j], k))
            && (u[0] in kept ==> forall w | w in rest :: IdOf(u[0], k) != IdOf(w, k))
  {
    var t := u[1..];
    if forall i, j | 0 <= i < j < |u| && u[i] in kept && u[j] in kept :: IdOf(u[i], k) != IdOf(u[j], k) {
      forall i, j | 0 <= i < j < |t| && t[i] in rest && t[j] in rest ensures IdOf(t[i], k) != IdOf(t[j], k) {
        assert t[i] == u[i + 1] && t[j] == u[j + 1];
      }
      forall w | u[0] in kept && w in rest ensures IdOf(u[0], k) != IdOf(w, k) {
        var j :| 0 <= j < |t| && t[j] == w;
        assert u[j + 1] == w;
      }
    } else {
      var i, j :| 0 <= i < j < |u| && u[i] in kept && u[j] in kept && IdOf(u[i], k) == IdOf(u[j], k);
      assert t[j - 1] == u[j] && u[j] in t;
      if i > 0 {
        assert t[i - 1] == u[i] && u[i] in t;
      }
    }
  }

  lemma {:induction false} AddedKeyed(p: seq<Value>, b: seq<Value>, seen: seq<Value>, k: string)
    ensures var added := Added(p, b, seen);
      KeyedBy(added, k) <==>
      && (forall v | v in added :: Tagged(v, k)) && (forall v, w | v in added && w in added && v != w :: IdOf(v, k) != IdOf(w, k))
    decreases |p|
  {
    if p != [] {
      if p[0] in b || p[0] in seen {
        AddedKeyed(p[1..], b, seen, k);
      } else {
        var rest := Added(p[1..], b, seen + [p[0]]);
        AddedKeyed(p[1..], b, seen + [p[0]], k);
        KeyedJoin([p[0]], rest, k);
        assert p[0] !in rest;
      }
    }
  }

  lemma UnpairedIn(b: seq<Value>, u: seq<Value>, p: seq<Value>)
    ensures forall v :: v in Unpaired(b, u, p) <==> v in u + p && Left(b, u, p, v)
  {
  }

  lemma UnpairedKeyed(b: seq<Value>, u: seq<Value>, p: seq<Value>, k: string)
    ensures KeyedBy(Unpaired(b, u, p), k) <==> LeftTagged(b, u, p, k)
  {
    var kept := Kept(u, b, p);
    var added := Added(p, b, kept);
    KeptKeyed(u, b, p, k);
    AddedKeyed(p, b, kept, k);
    KeyedJoin(kept, added, k);
  }

  /** The field that identifies the items when such a merged array is merged again. */
  function SecondOfLeft(b': seq<Value>, b: seq<Value>, u: seq<Value>, p: seq<Value>, p': seq<Value>): Option<string> {
    if b' == [] && p' == [] && (forall v | v in u + p :: !Left(b, u, p, v)) then None
    else if KeyedBy(b', "tag") && KeyedBy(p', "tag") && LeftTagged(b, u, p, "tag") then Some("tag")
    else if KeyedBy(b', "name") && KeyedBy(p', "name") && LeftTagged(b, u, p, "name") then Some("name")
    else if KeyedBy(b', "id") && KeyedBy(p', "id") && LeftTagged(b, u, p, "id") then Some("id")
    else None
  }

  lemma SecondOfLeftExact(b': seq<Value>, b: seq<Value>, u: seq<Value>, p: seq<Value>, p': seq<Value>)
    ensures ArrayKey([b', Unpaired(b, u, p), p']) == SecondOfLeft(b', b, u, p, p')
  {
    var m := Unpaired(b, u, p);
    ArrayKey3(b', m, p');
    UnpairedKeyed(b, u, p, "tag");
    UnpairedKeyed(b, u, p, "name");
    UnpairedKeyed(b, u, p, "id");
    UnpairedIn(b, u, p);
    EmptyIfNothingIn(m);
  }

  /** Every value that is left is settled against the items that share its id, and the preset has no
      other item that is new. */
  predicate LeftRests(b': seq<Value>, b: seq<Value>, u: seq<Value>, p: seq<Value>, p': seq<Value>) {
    match SecondOfLeft(b', b, u, p, p')
    case None =>
      && (forall v | v in u + p && Left(b, u, p, v) :: v in b' ==> v in p')
      && (forall v | v in p' :: v in b' || Left(b, u, p, v))
    case Some(k) =>
      && (forall v | v in u + p && Left(b, u, p, v) :: SettledValue(b', p', k, v))
      && (forall t | t in Ids(p', k) :: t in Ids(b', k) || exists v :: v in u + p && Left(b, u, p, v) && HasId(v, k, t))
  }

  lemma LeftRestsExact(b': seq<Value>, b: seq<Value>, u: seq<Value>, p: seq<Value>, p': seq<Value>)
    ensures SettledItems(b', Unpaired(b, u, p), p') <==> LeftRests(b', b, u, p, p')
  {
    var m := Unpaired(b, u, p);
    SecondOfLeftExact(b', b, u, p, p');
    UnpairedIn(b, u, p);
    if SecondOfLeft(b', b, u, p, p').Some? {
      SettledByValues(b', m, p', SecondOfLeft(b', b, u, p, p').value);
    }
  }

  // ---------------------------------------------------------------- merging into a merged tree

  /** Both sides hold objects, over a base object or nothing. */
  predicate Objects(b: Maybe, p: Maybe) {
    p.Present? && p.value.Obj? && (b.Present? ==> b.value.Obj?)
  }

  predicate Arrays(b: Maybe, p: Maybe) {
    p.Present? && p.value.Arr? && (b.Present? ==> b.value.Arr?)
  }

  /** Merging the change from b' to p' into the merge of b, u and p leaves that merge as it is. */
  predicate Rests(b': Maybe, b: Maybe, u: Maybe, p: Maybe, p': Maybe)
    decreases u.Present?, ValueOf(u)
  {
    if u == b then Settled(b', p, p')
    else if !ObjectNode(b, u, p) && !ArrayNode(b, u, p) then Settled(b', u, p')
    else if ObjectNode(b, u, p) && Objects(b', p') then
      forall k | k in Keys(b, u, p) + FieldsOf(b').Keys + FieldsOf(p').Keys ::
        Rests(Field(b', k), Field(b, k), Field(u, k), Field(p, k), Field(p', k))
    else
      || p' == b'
      || (&& !Yields(b, u, p, b')
          && (ArrayNode(b, u, p) && Arrays(b', p') ==>
                RestsItems(ItemsOf(b'), ItemsOf(b), ItemsOf(u), ItemsOf(p), ItemsOf(p'))))
  }

  /** For arrays: every survivor rests against the items that now share its id, and the preset has no
      other item that is new. */
  predicate RestsItems(b': seq<Value>, b: seq<Value>, u: seq<Value>, p: seq<Value>, p': seq<Value>)
    decreases true, Arr(u), 2
  {
    match ArrayKey([b, u, p])
    case None => (b' == b && p' == p) || LeftRests(b', b, u, p, p')
    case Some(key) =>
      match SecondKey(b', b, u, p, p', key)
      case None =>
        && (forall id, v | id in Order(u, p, key) && Survives(b, u, p, key, id) && v in b' ::
              YieldsItem(b, u, p, key, id, Present(v)) ==> v in p')
        && (forall v | v in p' :: v in b' || exists id ::
              id in Order(u, p, key) && Survives(b, u, p, key, id) && YieldsItem(b, u, p, key, id, Present(v)))
      case Some(k) =>
        && (forall id | id in Order(u, p, key) && Survives(b, u, p, key, id) :: RestsItem(b', b, u, p, p', key, id, k))
        && (forall t | t in Ids(p', k) :: t in Ids(b', k) || exists id ::
              id in Order(u, p, key) && Survives(b, u, p, key, id) && TagAt(b, u, p, key, id, k) == Present(Str(t)))
  }

  predicate RestsItem(b': seq<Value>, b: seq<Value>, u: seq<Value>, p: seq<Value>, p': seq<Value>,
                      key: string, id: string, k: string)
    decreases true, Arr(u), 0
  {
    var t := TagAt(b, u, p, key, id, k);
    IsTag(t) ==>
      var bv, uv, pv := Lookup(b, key, id), Lookup(u, key, id), Lookup(p, key, id);
      var bt, pt := Lookup(b', k, t.value.s), Lookup(p', k, t.value.s);
      || (bt.Missing? && pt.Present?)
      || (if AddedTwice(bv, uv, pv) then Settled(bt, uv, pt) else Rests(bt, bv, uv, pv, pt))
  }

  /** Object by object, a merge leaves the user's tree alone when it leaves every field alone. */
  lemma FieldsRest(b: Maybe, m: Maybe, p: Maybe, keys: set<string>)
    requires Objects(b, p) && m.Present? && m.value.Obj? && Keys(b, m, p) <= keys
    ensures Merge(b, m, p) == m <==> forall k | k in keys :: Merge(Field(b, k), Field(m, k), Field(p, k)) == Field(m, k)
  {
    if ObjectNode(b, m, p) {
      forall k ensures Field(Merge(b, m, p), k) == Merge(Field(b, k), Field(m, k), Field(p, k)) {
        MergedField(b, m, p, k);
      }
      SameFields(Merge(b, m, p), m, keys);
    } else if m == b {
      SameFields(p, m, keys);
    }
  }

  /** Merging into a merged tree leaves it as it is exactly when it rests. */
  lemma {:induction false} RestsExact(b': Maybe, b: Maybe, u: Maybe, p: Maybe, p': Maybe)
    ensures Merge(b', Merge(b, u, p), p') == Merge(b, u, p) <==> Rests(b', b, u, p, p')
    decreases u.Present?, ValueOf(u), 3
  {
    var m := Merge(b, u, p);
    if u == b {
      SettledExact(b', p, p');
    } else if !ObjectNode(b, u, p) && !ArrayNode(b, u, p) {
      SettledExact(b', u, p');
    } else if ObjectNode(b, u, p) && Objects(b', p') {
      forall k ensures Merge(Field(b', k), Field(m, k), Field(p', k)) == Field(m, k) <==>
                       Rests(Field(b', k), Field(b, k), Field(u, k), Field(p, k), Field(p', k)) {
        MergedField(b, u, p, k);
        RestsExact(Field(b', k), Field(b, k), Field(u, k), Field(p, k), Field(p', k));
      }
      FieldsRest(b', m, p', Keys(b, u, p) + FieldsOf(b').Keys + FieldsOf(p').Keys);
    } else {
      YieldsExact(b, u, p, b');
      if ArrayNode(b, u, p) && Arrays(b', p') {
        RestsItemsExact(ItemsOf(b'), ItemsOf(b), ItemsOf(u), ItemsOf(p), ItemsOf(p'));
      }
      ItemsRest(b', m, p');
    }
  }

  /** A merge that goes not field by field leaves the user's tree alone in these cases. */
  lemma ItemsRest(b: Maybe, m: Maybe, p: Maybe)
    requires m.Present? && (m.value.Obj? ==> !Objects(b, p))
    ensures Merge(b, m, p) == m <==>
            p == b || (m != b && (m.value.Arr? && Arrays(b, p) ==> MergeItems(ItemsOf(b), ItemsOf(m), ItemsOf(p)) == ItemsOf(m)))
  {
    RemergeSame(ItemsOf(b), ItemsOf(p));
  }

  lemma {:induction false} RestsItemsExact(b': seq<Value>, b: seq<Value>, u: seq<Value>, p: seq<Value>, p': seq<Value>)
    ensures var m := MergeItems(b, u, p); MergeItems(b', m, p') == m <==> RestsItems(b', b, u, p, p')
    decreases true, Arr(u), 2
  {
    var m := MergeItems(b, u, p);
    SettledItemsExact(b', m, p');
    match ArrayKey([b, u, p])
    case None =>
      if b' == b && p' == p { UnkeyedRemerge(b, u, p); }
      LeftRestsExact(b', b, u, p, p');
    case Some(key) =>
      SecondKeyExact(b', b, u, p, p', key);
      match SecondKey(b', b, u, p, p', key)
      case None => RestsUnpaired(b', b, u, p, p', key);
      case Some(k) =>
        forall id | id in Order(u, p, key) && Survives(b, u, p, key, id)
          ensures RestsItem(b', b, u, p, p', key, id, k) <==> SettledAs(b', b, u, p, p', key, id, k) {
          RestsItemExact(b', b, u, p, p', key, id, k);
        }
        RestsPaired(b', b, u, p, p', key, k);
  }

  /** The survivor is settled under the id it now has. */
  predicate SettledAs(b': seq<Value>, b: seq<Value>, u: seq<Value>, p: seq<Value>, p': seq<Value>,
                      key: string, id: string, k: string) {
    var t := TagAt(b, u, p, key, id, k);
    IsTag(t) ==> SettledItem(b', MergeItems(b, u, p), p', k, t.value.s)
  }

  lemma SurvivorTagged(b: seq<Value>, u: seq<Value>, p: seq<Value>, key: string, id: string, k: string)
    requires ArrayKey([b, u, p]) == Some(key) && KeyedBy(MergeItems(b, u, p), k)
    requires id in Order(u, p, key) && Survives(b, u, p, key, id)
    ensures var m, t := MergeItems(b, u, p), TagAt(b, u, p, key, id, k); (
      && IsTag(t) && Lookup(m, k, t.value.s) == MergeItem(b, u, p, key, id) && t.value.s in Ids(m, k)
      && MergeItem(b, u, p, key, id).Present?)
  {
    var m := MergeItems(b, u, p);
    MergedSurvivors(b, u, p, key);
    TagMerged(b, u, p, key, id, k);
    var v := MergeItem(b, u, p, key, id).value;
    assert Lookup(m, key, id) == Present(v);
    UniqueId(m, k, v);
    LookupIds(m, k, IdOf(v, k));
  }

  lemma SettledSurvivor(b': seq<Value>, b: seq<Value>, u: seq<Value>, p: seq<Value>, p': seq<Value>,
                        key: string, id: string, k: string)
    requires ArrayKey([b, u, p]) == Some(key) && KeyedBy(MergeItems(b, u, p), k)
    requires id in Order(u, p, key) && Survives(b, u, p, key, id)
    ensures IsTag(TagAt(b, u, p, key, id, k))
    ensures var t := TagAt(b, u, p, key, id, k).value.s; var bt, pt := Lookup(b', k, t), Lookup(p', k, t);
      SettledAs(b', b, u, p, p', key, id, k) <==>
      (bt.Missing? && pt.Present?) || Settled(bt, MergeItem(b, u, p, key, id), pt)
  {
    SurvivorTagged(b, u, p, key, id, k);
    var t := TagAt(b, u, p, key, id, k).value.s;
    SettledPresent(Lookup(b', k, t), MergeItem(b, u, p, key, id), Lookup(p', k, t));
  }

  lemma {:induction false} RestsItemExact(b': seq<Value>, b: seq<Value>, u: seq<Value>, p: seq<Value>, p': seq<Value>,
                                          key: string, id: string, k: string)
    requires ArrayKey([b, u, p]) == Some(key) && KeyedBy(MergeItems(b, u, p), k)
    requires id in Order(u, p, key) && Survives(b, u, p, key, id)
    ensures RestsItem(b', b, u, p, p', key, id, k) <==> SettledAs(b', b, u, p, p', key, id, k)
    decreases true, Arr(u), 0
  {
    SettledSurvivor(b', b, u, p, p', key, id, k);
    var t := TagAt(b, u, p, key, id, k).value.s;
    RestsOne(Lookup(b', k, t), Lookup(b, key, id), Lookup(u, key, id), Lookup(p, key, id), Lookup(p', k, t));
  }

  lemma {:induction false} RestsOne(bt: Maybe, b: Maybe, u: Maybe, p: Maybe, pt: Maybe)
    ensures Rests(bt, b, u, p, pt) <==> Settled(bt, Merge(b, u, p), pt)
    decreases u.Present?, ValueOf(u), 4
  {
    RestsExact(bt, b, u, p, pt);
    SettledExact(bt, Merge(b, u, p), pt);
  }

  lemma MergedFrom(b: seq<Value>, u: seq<Value>, p: seq<Value>, key: string, v: Value)
    requires ArrayKey([b, u, p]) == Some(key)
    ensures v in MergeItems(b, u, p) <==> exists id ::
              id in Order(u, p, key) && Survives(b, u, p, key, id) && MergeItem(b, u, p, key, id) == Present(v)
  {
    var m, s := MergeItems(b, u, p), Survivors(b, u, p, key, Order(u, p, key));
    MergedSurvivors(b, u, p, key);
    if v in m {
      var i :| 0 <= i < |m| && m[i] == v;
      assert s[i] in s;
    }
    if id :| id in Order(u, p, key) && Survives(b, u, p, key, id) && MergeItem(b, u, p, key, id) == Present(v) {
      assert Lookup(m, key, id) == Present(v);
    }
  }

  lemma RestsUnpaired(b': seq<Value>, b: seq<Value>, u: seq<Value>, p: seq<Value>, p': seq<Value>, key: string)
    requires ArrayKey([b, u, p]) == Some(key) && SecondKey(b', b, u, p, p', key).None?
    requires ArrayKey([b', MergeItems(b, u, p), p']).None?
    ensures SettledItems(b', MergeItems(b, u, p), p') <==> RestsItems(b', b, u, p, p')
  {
    forall id, v ensures MergeItem(b, u, p, key, id) == Present(v) <==> YieldsItem(b, u, p, key, id, Present(v)) {
      YieldsExact(Lookup(b, key, id), Lookup(u, key, id), Lookup(p, key, id), Present(v));
    }
    forall v ensures v in MergeItems(b, u, p) <==> exists id ::
        id in Order(u, p, key) && Survives(b, u, p, key, id) && YieldsItem(b, u, p, key, id, Present(v)) {
      MergedFrom(b, u, p, key, v);
    }
  }

  /** A survivor holds every id of the merged array. */
  lemma TagFrom(b: seq<Value>, u: seq<Value>, p: seq<Value>, key: string, k: string, t: string)
    requires ArrayKey([b, u, p]) == Some(key) && KeyedBy(MergeItems(b, u, p), k)
    ensures t in Ids(MergeItems(b, u, p), k) <==> exists id ::
              id in Order(u, p, key) && Survives(b, u, p, key, id) && TagAt(b, u, p, key, id, k) == Present(Str(t))
  {
    var m := MergeItems(b, u, p);
    if t in Ids(m, k) {
      var i :| 0 <= i < |m| && Ids(m, k)[i] == t;
      MergedFrom(b, u, p, key, m[i]);
      var id :| id in Order(u, p, key) && Survives(b, u, p, key, id) && MergeItem(b, u, p, key, id) == Present(m[i]);
      TagMerged(b, u, p, key, id, k);
    }
    if id :| id in Order(u, p, key) && Survives(b, u, p, key, id) && TagAt(b, u, p, key, id, k) == Present(Str(t)) {
      SurvivorTagged(b, u, p, key, id, k);
    }
  }

  lemma RestsPaired(b': seq<Value>, b: seq<Value>, u: seq<Value>, p: seq<Value>, p': seq<Value>, key: string, k: string)
    requires ArrayKey([b, u, p]) == Some(key) && SecondKey(b', b, u, p, p', key) == Some(k)
    requires ArrayKey([b', MergeItems(b, u, p), p']) == Some(k)
    requires forall id | id in Order(u, p, key) && Survives(b, u, p, key, id) ::
      RestsItem(b', b, u, p, p', key, id, k) <==> SettledAs(b', b, u, p, p', key, id, k)
    ensures SettledItems(b', MergeItems(b, u, p), p') <==> RestsItems(b', b, u, p, p')
  {
    var m := MergeItems(b, u, p);
    SettledByIds(b', m, p', k);
    ArrayKey3(b', m, p');
    forall t ensures t in Ids(m, k) <==> exists id ::
        id in Order(u, p, key) && Survives(b, u, p, key, id) && TagAt(b, u, p, key, id, k) == Present(Str(t)) {
      TagFrom(b, u, p, key, k, t);
    }
    forall id | id in Order(u, p, key) && Survives(b, u, p, key, id) ensures IsTag(TagAt(b, u, p, key, id, k)) {
      SurvivorTagged(b, u, p, key, id, k);
    }
  }

  // ---------------------------------------------------------------- merging the same preset twice

  /** The first merge is steady: the second, with the same base and preset, has nothing to change. */
  predicate Steady(b: Maybe, u: Maybe, p: Maybe) {
    Rests(b, b, u, p, p)
  }

  /** Merging the preset into an already merged template changes nothing exactly when the first merge
      was steady, which can be told before any merge. */
  lemma RemergeExact(b: Maybe, u: Maybe, p: Maybe)
    ensures Merge(b, Merge(b, u, p), p) == Merge(b, u, p) <==> Steady(b, u, p)
  {
    RestsExact(b, b, u, p, p);
  }
}
