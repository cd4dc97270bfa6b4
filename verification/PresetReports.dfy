/** When the second merge of a preset reports the conflicts of the first, at the same paths, told of the
    trees of the first merge; and trees for which a second merge differs. */
module PresetReports {
  import opened Options
  import opened PresetTree
  import opened M = PresetMerge
  import opened PresetAgain
  import opened PresetConflicts

  // ---------------------------------------------------------------- nothing to report

  /** The merge reports no conflict, here or below. */
  predicate Silent(b: Maybe, u: Maybe, p: Maybe)
    decreases u.Present?, ValueOf(u)
  {
    if ObjectNode(b, u, p) then
      forall k | k in Keys(b, u, p) :: Silent(M.Field(b, k), M.Field(u, k), M.Field(p, k))
    else if ArrayNode(b, u, p) then SilentItems(ItemsOf(b), ItemsOf(u), ItemsOf(p))
    else Diverged(b, u, p) ==> b.Missing?
  }

  predicate SilentItems(b: seq<Value>, u: seq<Value>, p: seq<Value>)
    decreases true, Arr(u), 2
  {
    match ArrayKey([b, u, p])
    case None => true
    case Some(key) => forall id | id in Order(u, p, key) :: SilentItem(b, u, p, key, id)
  }

  predicate SilentItem(b: seq<Value>, u: seq<Value>, p: seq<Value>, key: string, id: string)
    decreases true, Arr(u), 0
  {
    var bv, uv, pv := Lookup(b, key, id), Lookup(u, key, id), Lookup(p, key, id);
    !AddedTwice(bv, uv, pv) && Silent(bv, uv, pv)
  }

  lemma {:induction false} SilentAt(b: Maybe, u: Maybe, p: Maybe, path: Path)
    requires Silent(b, u, p)
    ensures ClashAt(b, u, p, path).None?
    decreases |path|
  {
    if path != [] {
      var s := path[0];
      if ObjectNode(b, u, p) && s.Field? {
        if s.name in Keys(b, u, p) {
          SilentAt(At1(b, s), At1(u, s), At1(p, s), path[1..]);
        }
      } else if ArrayNode(b, u, p) && s.Item? && ArrayKey([ItemsOf(b), ItemsOf(u), ItemsOf(p)]) == Some(s.key) {
        OrderedIds(ItemsOf(b), ItemsOf(u), ItemsOf(p), s.key, s.id);
        if s.id in Order(ItemsOf(u), ItemsOf(p), s.key) {
          assert SilentItem(ItemsOf(b), ItemsOf(u), ItemsOf(p), s.key, s.id);
          SilentAt(At1(b, s), At1(u, s), At1(p, s), path[1..]);
        }
      }
    }
  }

  lemma {:induction false} SilentIf(b: Maybe, u: Maybe, p: Maybe)
    requires Unreported(b, u, p)
    ensures Silent(b, u, p)
    decreases u.Present?, ValueOf(u), 3
  {
    if ObjectNode(b, u, p) {
      forall k | k in Keys(b, u, p) ensures Silent(M.Field(b, k), M.Field(u, k), M.Field(p, k)) {
        forall path ensures ClashAt(M.Field(b, k), M.Field(u, k), M.Field(p, k), path).None? {
          ClashBelowField(b, u, p, k, path);
        }
        SilentIf(M.Field(b, k), M.Field(u, k), M.Field(p, k));
      }
    } else if ArrayNode(b, u, p) {
      var bi, ui, pi := ItemsOf(b), ItemsOf(u), ItemsOf(p);
      if ArrayKey([bi, ui, pi]).Some? {
        var key := ArrayKey([bi, ui, pi]).value;
        forall id | id in Order(ui, pi, key) ensures SilentItem(bi, ui, pi, key, id) {
          forall path ensures ClashAt(b, u, p, [Item(key, id)] + path).None? {
          }
          SilentItemIf(b, u, p, key, id);
        }
      }
    } else {
      assert ClashAt(b, u, p, []).None?;
    }
  }

  lemma ClashBelowField(b: Maybe, u: Maybe, p: Maybe, k: string, path: Path)
    requires ObjectNode(b, u, p)
    ensures ClashAt(b, u, p, [Field(k)] + path) == ClashAt(M.Field(b, k), M.Field(u, k), M.Field(p, k), path)
  {
    assert ([Field(k)] + path)[1..] == path;
  }

  lemma ClashBelowItem(b: Maybe, u: Maybe, p: Maybe, key: string, id: string, path: Path)
    requires ArrayNode(b, u, p) && ArrayKey([ItemsOf(b), ItemsOf(u), ItemsOf(p)]) == Some(key)
    ensures var bv, uv, pv := Lookup(ItemsOf(b), key, id), Lookup(ItemsOf(u), key, id), Lookup(ItemsOf(p), key, id);
      ClashAt(b, u, p, [Item(key, id)] + path) ==
      if !AddedTwice(bv, uv, pv) then ClashAt(bv, uv, pv, path)
      else if path == [] then Some(Clash(SameArrayKeyAdded, bv, uv, pv)) else None
  {
    assert ([Item(key, id)] + path)[1..] == path;
    assert ([Item(key, id)] + path == [Item(key, id)]) <==> path == [] by {
      assert |[Item(key, id)] + path| == 1 + |path|;
    }
  }

  lemma {:induction false} SilentItemIf(b: Maybe, u: Maybe, p: Maybe, key: string, id: string)
    requires ArrayNode(b, u, p) && ArrayKey([ItemsOf(b), ItemsOf(u), ItemsOf(p)]) == Some(key)
    requires forall path :: ClashAt(b, u, p, [Item(key, id)] + path).None?
    ensures SilentItem(ItemsOf(b), ItemsOf(u), ItemsOf(p), key, id)
    decreases true, Arr(ItemsOf(u)), 0
  {
    var bv, uv, pv := Lookup(ItemsOf(b), key, id), Lookup(ItemsOf(u), key, id), Lookup(ItemsOf(p), key, id);
    ClashBelowItem(b, u, p, key, id, []);
    forall path ensures ClashAt(bv, uv, pv, path).None? {
      ClashBelowItem(b, u, p, key, id, path);
    }
    SilentIf(bv, uv, pv);
  }

  /** Nothing is reported at any path exactly when the merge is silent. */
  lemma SilentExact(b: Maybe, u: Maybe, p: Maybe)
    ensures Silent(b, u, p) <==> Unreported(b, u, p)
  {
    if Silent(b, u, p) {
      forall path ensures ClashAt(b, u, p, path).None? {
        SilentAt(b, u, p, path);
      }
    }
    if Unreported(b, u, p) {
      SilentIf(b, u, p);
    }
  }

  ghost predicate Unreported(b: Maybe, u: Maybe, p: Maybe) {
    forall path :: ClashAt(b, u, p, path).None?
  }

  lemma OrderedIds(b: seq<Value>, u: seq<Value>, p: seq<Value>, key: string, id: string)
    requires ArrayKey([b, u, p]) == Some(key)
    ensures id in Order(u, p, key) <==> Lookup(u, key, id).Present? || Lookup(p, key, id).Present?
  {
    ArrayKeySound([b, u, p]);
    assert u in [b, u, p] && p in [b, u, p];
    OrderFacts(u, p, key);
  }

  // ---------------------------------------------------------------- nothing to report by a second merge

  /** Merging the change from b' to p' into the merge of b, u and p reports nothing. */
  predicate SilentAfter(b': Maybe, b: Maybe, u: Maybe, p: Maybe, p': Maybe)
    decreases u.Present?, ValueOf(u)
  {
    if u == b then Silent(b', p, p')
    else if !ObjectNode(b, u, p) && !ArrayNode(b, u, p) then Silent(b', u, p')
    else if ObjectNode(b, u, p) && Objects(b', p') then
      forall k | k in Keys(b, u, p) + FieldsOf(b').Keys + FieldsOf(p').Keys ::
        SilentAfter(M.Field(b', k), M.Field(b, k), M.Field(u, k), M.Field(p, k), M.Field(p', k))
    else
      || p' == b' || Yields(b, u, p, b') || Yields(b, u, p, p')
      || (if ArrayNode(b, u, p) && Arrays(b', p')
          then SilentItemsAfter(ItemsOf(b'), ItemsOf(b), ItemsOf(u), ItemsOf(p), ItemsOf(p'))
          else b'.Missing?)
  }

  predicate SilentItemsAfter(b': seq<Value>, b: seq<Value>, u: seq<Value>, p: seq<Value>, p': seq<Value>)
    decreases true, Arr(u), 2
  {
    match ArrayKey([b, u, p])
    case None => LeftSilent(b', b, u, p, p')
    case Some(key) =>
      match SecondKey(b', b, u, p, p', key)
      case None => true
      case Some(k) =>
        && (forall id | id in Order(u, p, key) && Survives(b, u, p, key, id) :: SilentItemAfter(b', b, u, p, p', key, id, k))
        && (forall t | t in Ids(p', k) && Lookup(b', k, t).Present? && Lookup(b', k, t) != Lookup(p', k, t) ::
              exists id :: id in Order(u, p, key) && Survives(b, u, p, key, id) && TagAt(b, u, p, key, id, k) == Present(Str(t)))
  }

  predicate SilentValue(b: seq<Value>, p: seq<Value>, k: string, v: Value) {
    var bt, pt := Lookup(b, k, IdOf(v, k)), Lookup(p, k, IdOf(v, k));
    !AddedTwice(bt, Present(v), pt) && Silent(bt, Present(v), pt)
  }

  /** For arrays that no field identified: no value that is left differs from what shares its id, and
      the preset changed no item that is not left. */
  predicate LeftSilent(b': seq<Value>, b: seq<Value>, u: seq<Value>, p: seq<Value>, p': seq<Value>) {
    match SecondOfLeft(b', b, u, p, p')
    case None => true
    case Some(k) =>
      && (forall v | v in u + p && Left(b, u, p, v) :: SilentValue(b', p', k, v))
      && (forall t | t in Ids(p', k) && Lookup(b', k, t).Present? && Lookup(b', k, t) != Lookup(p', k, t) ::
            exists v :: v in u + p && Left(b, u, p, v) && HasId(v, k, t))
  }

  predicate SilentItemAfter(b': seq<Value>, b: seq<Value>, u: seq<Value>, p: seq<Value>, p': seq<Value>,
                            key: string, id: string, k: string)
    decreases true, Arr(u), 0
  {
    var t := TagAt(b, u, p, key, id, k);
    IsTag(t) ==>
      var bv, uv, pv := Lookup(b, key, id), Lookup(u, key, id), Lookup(p, key, id);
      var bt, pt := Lookup(b', k, t.value.s), Lookup(p', k, t.value.s);
      if AddedTwice(bv, uv, pv) then !AddedTwice(bt, uv, pt) && Silent(bt, uv, pt)
      else (bt.Missing? && pt.Present? ==> Yields(bv, uv, pv, pt)) && SilentAfter(bt, bv, uv, pv, pt)
  }

  lemma SilentWithout(b: seq<Value>, m: seq<Value>, p: seq<Value>, k: string, t: string)
    requires KeyedBy(m, k) && t !in Ids(m, k)
    ensures SilentItem(b, m, p, k, t) <==>
            Lookup(p, k, t).Missing? || Lookup(b, k, t).Missing? || Lookup(b, k, t) == Lookup(p, k, t)
  {
    LookupIds(m, k, t);
  }

  /** An identified array is silent when each of its items is, and the preset changed no item it lacks. */
  lemma SilentByIds(b: seq<Value>, m: seq<Value>, p: seq<Value>, k: string)
    requires ArrayKey([b, m, p]) == Some(k)
    ensures SilentItems(b, m, p) <==>
            && (forall t | t in Ids(m, k) :: SilentItem(b, m, p, k, t))
            && (forall t | t in Ids(p, k) && Lookup(b, k, t).Present? && Lookup(b, k, t) != Lookup(p, k, t) :: t in Ids(m, k))
  {
    ArrayKey3(b, m, p);
    forall t | t in Ids(p, k) && t !in Ids(m, k)
      ensures SilentItem(b, m, p, k, t) <==> Lookup(b, k, t).Missing? || Lookup(b, k, t) == Lookup(p, k, t) {
      LookupIds(p, k, t);
      SilentWithout(b, m, p, k, t);
    }
    assert forall t :: t in Order(m, p, k) <==> t in Ids(m, k) || t in Ids(p, k);
  }

  lemma SilentValueExact(b: seq<Value>, m: seq<Value>, p: seq<Value>, k: string, v: Value)
    requires KeyedBy(m, k) && v in m
    ensures SilentItem(b, m, p, k, IdOf(v, k)) <==> SilentValue(b, p, k, v)
  {
    UniqueId(m, k, v);
  }

  lemma SilentByValues(b: seq<Value>, m: seq<Value>, p: seq<Value>, k: string)
    requires ArrayKey([b, m, p]) == Some(k)
    ensures SilentItems(b, m, p) <==>
            && (forall v | v in m :: SilentValue(b, p, k, v))
            && (forall t | t in Ids(p, k) && Lookup(b, k, t).Present? && Lookup(b, k, t) != Lookup(p, k, t) ::
                  exists v :: v in m && HasId(v, k, t))
  {
    SilentByIds(b, m, p, k);
    ArrayKey3(b, m, p);
    ItemsById(m, k);
    forall v | v in m ensures SilentItem(b, m, p, k, IdOf(v, k)) <==> SilentValue(b, p, k, v) {
      SilentValueExact(b, m, p, k, v);
    }
  }

  lemma LeftSilentExact(b': seq<Value>, b: seq<Value>, u: seq<Value>, p: seq<Value>, p': seq<Value>)
    ensures SilentItems(b', Unpaired(b, u, p), p') <==> LeftSilent(b', b, u, p, p')
  {
    var m := Unpaired(b, u, p);
    SecondOfLeftExact(b', b, u, p, p');
    UnpairedIn(b, u, p);
    if SecondOfLeft(b', b, u, p, p').Some? {
      SilentByValues(b', m, p', SecondOfLeft(b', b, u, p, p').value);
    }
  }

  lemma FieldsSilent(b: Maybe, m: Maybe, p: Maybe, keys: set<string>)
    requires Objects(b, p) && m.Present? && m.value.Obj? && Keys(b, m, p) <= keys
    ensures Silent(b, m, p) <==> forall k | k in keys :: Silent(M.Field(b, k), M.Field(m, k), M.Field(p, k))
  {
    if !ObjectNode(b, m, p) {
      forall k ensures Silent(M.Field(b, k), M.Field(m, k), M.Field(p, k)) {
        assert !Diverged(M.Field(b, k), M.Field(m, k), M.Field(p, k));
      }
    }
  }

  /** Where the merge goes not field by field, it is silent in these cases. */
  lemma SilentElse(b: Maybe, m: Maybe, p: Maybe)
    requires m.Present? && (m.value.Obj? ==> !Objects(b, p))
    ensures Silent(b, m, p) <==>
            p == b || m == b || m == p
            || (if m.value.Arr? && Arrays(b, p) then SilentItems(ItemsOf(b), ItemsOf(m), ItemsOf(p)) else b.Missing?)
  {
  }

  lemma {:induction false} SilentAfterExact(b': Maybe, b: Maybe, u: Maybe, p: Maybe, p': Maybe)
    ensures Silent(b', Merge(b, u, p), p') <==> SilentAfter(b', b, u, p, p')
    decreases u.Present?, ValueOf(u), 3
  {
    var m := Merge(b, u, p);
    if ObjectNode(b, u, p) && Objects(b', p') {
      forall k ensures Silent(M.Field(b', k), M.Field(m, k), M.Field(p', k)) <==>
                       SilentAfter(M.Field(b', k), M.Field(b, k), M.Field(u, k), M.Field(p, k), M.Field(p', k)) {
        MergedField(b, u, p, k);
        SilentAfterExact(M.Field(b', k), M.Field(b, k), M.Field(u, k), M.Field(p, k), M.Field(p', k));
      }
      FieldsSilent(b', m, p', Keys(b, u, p) + FieldsOf(b').Keys + FieldsOf(p').Keys);
    } else if ObjectNode(b, u, p) || ArrayNode(b, u, p) {
      YieldsExact(b, u, p, b');
      YieldsExact(b, u, p, p');
      if ArrayNode(b, u, p) && Arrays(b', p') {
        SilentItemsAfterExact(ItemsOf(b'), ItemsOf(b), ItemsOf(u), ItemsOf(p), ItemsOf(p'));
      }
      SilentElse(b', m, p');
    }
  }

  lemma {:induction false} SilentItemsAfterExact(b': seq<Value>, b: seq<Value>, u: seq<Value>, p: seq<Value>, p': seq<Value>)
    ensures SilentItems(b', MergeItems(b, u, p), p') <==> SilentItemsAfter(b', b, u, p, p')
    decreases true, Arr(u), 2
  {
    match ArrayKey([b, u, p])
    case None => LeftSilentExact(b', b, u, p, p');
    case Some(key) =>
      SecondKeyExact(b', b, u, p, p', key);
      match SecondKey(b', b, u, p, p', key)
      case None =>
      case Some(k) =>
        ArrayKey3(b', MergeItems(b, u, p), p');
        forall id | id in Order(u, p, key) && Survives(b, u, p, key, id)
          ensures SilentItemAfter(b', b, u, p, p', key, id, k) <==> SilentAs(b', b, u, p, p', key, id, k) {
          SilentItemAfterExact(b', b, u, p, p', key, id, k);
        }
        SilentPaired(b', b, u, p, p', key, k);
  }

  predicate SilentAs(b': seq<Value>, b: seq<Value>, u: seq<Value>, p: seq<Value>, p': seq<Value>,
                     key: string, id: string, k: string) {
    var t := TagAt(b, u, p, key, id, k);
    IsTag(t) ==> SilentItem(b', MergeItems(b, u, p), p', k, t.value.s)
  }

  lemma SilentSurvivor(b': seq<Value>, b: seq<Value>, u: seq<Value>, p: seq<Value>, p': seq<Value>,
                       key: string, id: string, k: string)
    requires ArrayKey([b, u, p]) == Some(key) && KeyedBy(MergeItems(b, u, p), k)
    requires id in Order(u, p, key) && Survives(b, u, p, key, id)
    ensures IsTag(TagAt(b, u, p, key, id, k)) && MergeItem(b, u, p, key, id).Present?
    ensures var t := TagAt(b, u, p, key, id, k).value.s;
      var bt, mv, pt := Lookup(b', k, t), MergeItem(b, u, p, key, id), Lookup(p', k, t);
      SilentAs(b', b, u, p, p', key, id, k) <==> !AddedTwice(bt, mv, pt) && Silent(bt, mv, pt)
  {
    SurvivorTagged(b, u, p, key, id, k);
  }

  lemma {:induction false} SilentItemAfterExact(b': seq<Value>, b: seq<Value>, u: seq<Value>, p: seq<Value>, p': seq<Value>,
                                                key: string, id: string, k: string)
    requires ArrayKey([b, u, p]) == Some(key) && KeyedBy(MergeItems(b, u, p), k)
    requires id in Order(u, p, key) && Survives(b, u, p, key, id)
    ensures SilentItemAfter(b', b, u, p, p', key, id, k) <==> SilentAs(b', b, u, p, p', key, id, k)
    decreases true, Arr(u), 0
  {
    SilentSurvivor(b', b, u, p, p', key, id, k);
    var t := TagAt(b, u, p, key, id, k).value.s;
    var bv, uv, pv, pt := Lookup(b, key, id), Lookup(u, key, id), Lookup(p, key, id), Lookup(p', k, t);
    YieldsExact(bv, uv, pv, pt);
    SilentAfterExact(Lookup(b', k, t), bv, uv, pv, pt);
  }

  lemma SilentPaired(b': seq<Value>, b: seq<Value>, u: seq<Value>, p: seq<Value>, p': seq<Value>, key: string, k: string)
    requires ArrayKey([b, u, p]) == Some(key) && SecondKey(b', b, u, p, p', key) == Some(k)
    requires ArrayKey([b', MergeItems(b, u, p), p']) == Some(k)
    requires forall id | id in Order(u, p, key) && Survives(b, u, p, key, id) ::
      SilentItemAfter(b', b, u, p, p', key, id, k) <==> SilentAs(b', b, u, p, p', key, id, k)
    ensures SilentItems(b', MergeItems(b, u, p), p') <==> SilentItemsAfter(b', b, u, p, p')
  {
    var m := MergeItems(b, u, p);
    ArrayKey3(b', m, p');
    forall t ensures t in Ids(m, k) <==> exists id ::
        id in Order(u, p, key) && Survives(b, u, p, key, id) && TagAt(b, u, p, key, id, k) == Present(Str(t)) {
      TagFrom(b, u, p, key, k, t);
    }
    SilentSurvivors(b', b, u, p, p', key, k);
    SilentByIds(b', m, p', k);
  }

  /** Every survivor is silent exactly when every item of the merged array is. */
  lemma SilentSurvivors(b': seq<Value>, b: seq<Value>, u: seq<Value>, p: seq<Value>, p': seq<Value>, key: string, k: string)
    requires ArrayKey([b, u, p]) == Some(key) && KeyedBy(MergeItems(b, u, p), k)
    requires forall t | t in Ids(MergeItems(b, u, p), k) :: exists id ::
        id in Order(u, p, key) && Survives(b, u, p, key, id) && TagAt(b, u, p, key, id, k) == Present(Str(t))
    ensures (forall id | id in Order(u, p, key) && Survives(b, u, p, key, id) :: SilentAs(b', b, u, p, p', key, id, k)) <==>
            forall t | t in Ids(MergeItems(b, u, p), k) :: SilentItem(b', MergeItems(b, u, p), p', k, t)
  {
    var m := MergeItems(b, u, p);
    if forall id | id in Order(u, p, key) && Survives(b, u, p, key, id) :: SilentAs(b', b, u, p, p', key, id, k) {
      forall t | t in Ids(m, k) ensures SilentItem(b', m, p', k, t) {
        var id :| id in Order(u, p, key) && Survives(b, u, p, key, id) && TagAt(b, u, p, key, id, k) == Present(Str(t));
        assert SilentAs(b', b, u, p, p', key, id, k);
      }
    }
    if forall t | t in Ids(m, k) :: SilentItem(b', m, p', k, t) {
      forall id | id in Order(u, p, key) && Survives(b, u, p, key, id) ensures SilentAs(b', b, u, p, p', key, id, k) {
        SurvivorTagged(b, u, p, key, id, k);
      }
    }
  }

  // ---------------------------------------------------------------- the reports of a second merge

  /** Merging the preset again reports the same conflicts at the same paths. Objects ask this of every
      field, and arrays of every item if both merges pair the items by the same field; if not, no
      path can agree, and neither merge may report anything there. */
  predicate SameReports(b: Maybe, u: Maybe, p: Maybe)
    decreases u.Present?, ValueOf(u)
  {
    if ObjectNode(b, u, p) then
      forall k | k in Keys(b, u, p) :: SameReports(M.Field(b, k), M.Field(u, k), M.Field(p, k))
    else ArrayNode(b, u, p) ==>
      if PairedAlike(ItemsOf(b), ItemsOf(u), ItemsOf(p)) then SameItemReports(ItemsOf(b), ItemsOf(u), ItemsOf(p))
      else SilentItems(ItemsOf(b), ItemsOf(u), ItemsOf(p)) && SilentAfter(b, b, u, p, p)
  }

  /** Both merges pair the items by the same field, or neither by any. */
  predicate PairedAlike(b: seq<Value>, u: seq<Value>, p: seq<Value>) {
    match ArrayKey([b, u, p])
    case None => SecondOfLeft(b, b, u, p, p).None?
    case Some(key) => SecondKey(b, b, u, p, p, key) == Some(key)
  }

  predicate SameItemReports(b: seq<Value>, u: seq<Value>, p: seq<Value>)
    decreases true, Arr(u), 2
  {
    match ArrayKey([b, u, p])
    case None => true
    case Some(key) => forall id | id in Order(u, p, key) :: SameItemReport(b, u, p, key, id)
  }

  predicate SameItemReport(b: seq<Value>, u: seq<Value>, p: seq<Value>, key: string, id: string)
    decreases true, Arr(u), 0
  {
    var bv, uv, pv := Lookup(b, key, id), Lookup(u, key, id), Lookup(p, key, id);
    AddedTwice(bv, uv, pv) || SameReports(bv, uv, pv)
  }

  lemma PairedAlikeExact(b: seq<Value>, u: seq<Value>, p: seq<Value>)
    ensures PairedAlike(b, u, p) <==> ArrayKey([b, MergeItems(b, u, p), p]) == ArrayKey([b, u, p])
  {
    match ArrayKey([b, u, p])
    case None => SecondOfLeftExact(b, b, u, p, p);
    case Some(key) => SecondKeyExact(b, b, u, p, p, key);
  }

  ghost predicate AlikeAt(b: Maybe, u: Maybe, m: Maybe, p: Maybe, path: Path) {
    ClashAt(b, m, p, path) == ClashAt(b, u, p, path)
  }

  /** Both user trees give the same reports at every path. */
  ghost predicate Alike(b: Maybe, u: Maybe, m: Maybe, p: Maybe) {
    forall path :: AlikeAt(b, u, m, p, path)
  }

  /** Trees that do not diverge report nothing. */
  lemma NothingReported(b: Maybe, u: Maybe, p: Maybe, path: Path)
    requires !Diverged(b, u, p)
    ensures ClashAt(b, u, p, path).None?
  {
  }

  /** One step down, the merged object holds the merge, and both merges report what they report there. */
  lemma FieldAlike(b: Maybe, u: Maybe, p: Maybe, k: string, path: Path)
    requires ObjectNode(b, u, p)
    ensures AlikeAt(b, u, Merge(b, u, p), p, [Field(k)] + path) <==>
            AlikeAt(M.Field(b, k), M.Field(u, k), M.Field(Merge(b, u, p), k), M.Field(p, k), path)
  {
    var m := Merge(b, u, p);
    ClashBelowField(b, u, p, k, path);
    if ObjectNode(b, m, p) {
      ClashBelowField(b, m, p, k, path);
    } else {
      NothingReported(b, m, p, [Field(k)] + path);
      NothingReported(M.Field(b, k), M.Field(m, k), M.Field(p, k), path);
    }
  }

  /** The merged array diverges from the base, and from the preset where both sides added an item. */
  lemma MergedDiverges(b: Maybe, u: Maybe, p: Maybe, key: string, id: string)
    requires ArrayNode(b, u, p) && ArrayKey([ItemsOf(b), ItemsOf(u), ItemsOf(p)]) == Some(key)
    ensures var bv, uv, pv := Lookup(ItemsOf(b), key, id), Lookup(ItemsOf(u), key, id), Lookup(ItemsOf(p), key, id); (
      && Merge(b, u, p) != b
      && (AddedTwice(bv, uv, pv) ==> Merge(b, u, p) != p)
      && Lookup(ItemsOf(Merge(b, u, p)), key, id) == if AddedTwice(bv, uv, pv) then uv else Merge(bv, uv, pv))
  {
    if Merge(b, u, p) == b {
      BackToBase(b, u, p);
    }
    MergedArray(ItemsOf(b), ItemsOf(u), ItemsOf(p), key);
  }

  lemma NotAddedTwice(b: Maybe, u: Maybe, p: Maybe)
    requires !AddedTwice(b, u, p)
    ensures !AddedTwice(b, Merge(b, u, p), p)
  {
  }

  /** One step down into an array that both merges pair by the same field. */
  lemma ItemAlike(b: Maybe, u: Maybe, p: Maybe, key: string, id: string, path: Path)
    requires ArrayNode(b, u, p) && ArrayKey([ItemsOf(b), ItemsOf(u), ItemsOf(p)]) == Some(key)
    requires ArrayKey([ItemsOf(b), ItemsOf(Merge(b, u, p)), ItemsOf(p)]) == Some(key)
    ensures var bv, uv, pv := Lookup(ItemsOf(b), key, id), Lookup(ItemsOf(u), key, id), Lookup(ItemsOf(p), key, id);
      AlikeAt(b, u, Merge(b, u, p), p, [Item(key, id)] + path) <==>
      AddedTwice(bv, uv, pv) || AlikeAt(bv, uv, Merge(bv, uv, pv), pv, path)
  {
    MergedDiverges(b, u, p, key, id);
    ClashBelowItem(b, u, p, key, id, path);
    ItemReports(b, Merge(b, u, p), p, key, id, path);
    NotAddedTwiceAt(b, u, p, key, id);
  }

  lemma NotAddedTwiceAt(b: Maybe, u: Maybe, p: Maybe, key: string, id: string)
    ensures var bv, uv, pv := Lookup(ItemsOf(b), key, id), Lookup(ItemsOf(u), key, id), Lookup(ItemsOf(p), key, id);
      AddedTwice(bv, uv, pv) || !AddedTwice(bv, Merge(bv, uv, pv), pv)
  {
    var bv, uv, pv := Lookup(ItemsOf(b), key, id), Lookup(ItemsOf(u), key, id), Lookup(ItemsOf(p), key, id);
    if !AddedTwice(bv, uv, pv) { NotAddedTwice(bv, uv, pv); }
  }

  lemma ItemReports(b: Maybe, m: Maybe, p: Maybe, key: string, id: string, path: Path)
    requires m.Present? && m.value.Arr? && Arrays(b, p) && m != b
    requires ArrayKey([ItemsOf(b), ItemsOf(m), ItemsOf(p)]) == Some(key)
    ensures var bv, mv, pv := Lookup(ItemsOf(b), key, id), Lookup(ItemsOf(m), key, id), Lookup(ItemsOf(p), key, id);
      (AddedTwice(bv, mv, pv) ==> m != p) ==>
      ClashAt(b, m, p, [Item(key, id)] + path) ==
      if p == b then None
      else if !AddedTwice(bv, mv, pv) then ClashAt(bv, mv, pv, path)
      else if path == [] then Some(Clash(SameArrayKeyAdded, bv, mv, pv)) else None
  {
    if ArrayNode(b, m, p) {
      ClashBelowItem(b, m, p, key, id, path);
    } else {
      NothingReported(b, m, p, [Item(key, id)] + path);
      if m == p {
        var v := Lookup(ItemsOf(m), key, id);
        NothingReported(Lookup(ItemsOf(b), key, id), v, v, path);
      }
    }
  }

  lemma SilentAlike(b: Maybe, u: Maybe, m: Maybe, p: Maybe, path: Path)
    requires Silent(b, u, p) && Silent(b, m, p)
    ensures AlikeAt(b, u, m, p, path)
  {
    SilentAt(b, u, p, path);
    SilentAt(b, m, p, path);
  }

  /** An array reports only below its own items. */
  lemma ReportsBelow(b: Maybe, m: Maybe, p: Maybe, path: Path)
    requires m.Present? && m.value.Arr? && Arrays(b, p) && ClashAt(b, m, p, path).Some? && m != b
    ensures path != [] && path[0].Item? && ArrayKey([ItemsOf(b), ItemsOf(m), ItemsOf(p)]) == Some(path[0].key)
  {
  }

  lemma {:induction false} SameReportsAt(b: Maybe, u: Maybe, p: Maybe, path: Path)
    requires SameReports(b, u, p)
    ensures AlikeAt(b, u, Merge(b, u, p), p, path)
    decreases |path|
  {
    if ObjectNode(b, u, p) {
      if path != [] && path[0].Field? {
        var k := path[0].name;
        assert path == [Field(k)] + path[1..];
        MergedField(b, u, p, k);
        FieldAlike(b, u, p, k, path[1..]);
        if k in Keys(b, u, p) {
          SameReportsAt(M.Field(b, k), M.Field(u, k), M.Field(p, k), path[1..]);
        }
      }
    } else if ArrayNode(b, u, p) {
      PairedAlikeExact(ItemsOf(b), ItemsOf(u), ItemsOf(p));
      if PairedAlike(ItemsOf(b), ItemsOf(u), ItemsOf(p)) {
        SameItemReportsAt(b, u, p, path);
      } else {
        SilentAfterExact(b, b, u, p, p);
        SilentAlike(b, u, Merge(b, u, p), p, path);
      }
    }
  }

  lemma {:induction false} SameItemReportsAt(b: Maybe, u: Maybe, p: Maybe, path: Path)
    requires ArrayNode(b, u, p) && SameItemReports(ItemsOf(b), ItemsOf(u), ItemsOf(p))
    requires ArrayKey([ItemsOf(b), ItemsOf(Merge(b, u, p)), ItemsOf(p)]) == ArrayKey([ItemsOf(b), ItemsOf(u), ItemsOf(p)])
    ensures AlikeAt(b, u, Merge(b, u, p), p, path)
    decreases |path|, 0
  {
    var m := Merge(b, u, p);
    if m == b { BackToBase(b, u, p); }
    if ClashAt(b, u, p, path).Some? { ReportsBelow(b, u, p, path); }
    if ClashAt(b, m, p, path).Some? { ReportsBelow(b, m, p, path); }
    if path != [] && path[0].Item? && ArrayKey([ItemsOf(b), ItemsOf(u), ItemsOf(p)]) == Some(path[0].key) {
      var key, id := path[0].key, path[0].id;
      assert path == [Item(key, id)] + path[1..];
      ItemAlike(b, u, p, key, id, path[1..]);
      OrderedIds(ItemsOf(b), ItemsOf(u), ItemsOf(p), key, id);
      var bv, uv, pv := Lookup(ItemsOf(b), key, id), Lookup(ItemsOf(u), key, id), Lookup(ItemsOf(p), key, id);
      if id in Order(ItemsOf(u), ItemsOf(p), key) && !AddedTwice(bv, uv, pv) {
        assert SameItemReport(ItemsOf(b), ItemsOf(u), ItemsOf(p), key, id);
        SameReportsAt(bv, uv, pv, path[1..]);
      }
    }
  }

  lemma {:induction false} SameReportsIf(b: Maybe, u: Maybe, p: Maybe)
    requires Alike(b, u, Merge(b, u, p), p)
    ensures SameReports(b, u, p)
    decreases u.Present?, ValueOf(u), 3
  {
    if ObjectNode(b, u, p) {
      forall k | k in Keys(b, u, p) ensures SameReports(M.Field(b, k), M.Field(u, k), M.Field(p, k)) {
        MergedField(b, u, p, k);
        forall path ensures AlikeAt(M.Field(b, k), M.Field(u, k), M.Field(Merge(b, u, p), k), M.Field(p, k), path) {
          FieldAlike(b, u, p, k, path);
          assert AlikeAt(b, u, Merge(b, u, p), p, [Field(k)] + path);
        }
        SameReportsIf(M.Field(b, k), M.Field(u, k), M.Field(p, k));
      }
    } else if ArrayNode(b, u, p) {
      var bi, ui, pi := ItemsOf(b), ItemsOf(u), ItemsOf(p);
      PairedAlikeExact(bi, ui, pi);
      if !PairedAlike(bi, ui, pi) {
        RepairedSilent(b, u, p);
      } else if ArrayKey([bi, ui, pi]).Some? {
        var key := ArrayKey([bi, ui, pi]).value;
        forall id | id in Order(ui, pi, key) ensures SameItemReport(bi, ui, pi, key, id) {
          SameItemReportIf(b, u, p, key, id);
        }
      }
    }
  }

  lemma {:induction false} SameItemReportIf(b: Maybe, u: Maybe, p: Maybe, key: string, id: string)
    requires ArrayNode(b, u, p) && ArrayKey([ItemsOf(b), ItemsOf(u), ItemsOf(p)]) == Some(key)
    requires ArrayKey([ItemsOf(b), ItemsOf(Merge(b, u, p)), ItemsOf(p)]) == Some(key)
    requires Alike(b, u, Merge(b, u, p), p)
    ensures SameItemReport(ItemsOf(b), ItemsOf(u), ItemsOf(p), key, id)
    decreases true, Arr(ItemsOf(u)), 0
  {
    var bv, uv, pv := Lookup(ItemsOf(b), key, id), Lookup(ItemsOf(u), key, id), Lookup(ItemsOf(p), key, id);
    if !AddedTwice(bv, uv, pv) {
      forall path ensures AlikeAt(bv, uv, Merge(bv, uv, pv), pv, path) {
        ItemAlike(b, u, p, key, id, path);
        assert AlikeAt(b, u, Merge(b, u, p), p, [Item(key, id)] + path);
      }
      SameReportsIf(bv, uv, pv);
    }
  }

  /** When the two merges pair the items by different fields, they can only agree in silence. */
  lemma RepairedSilent(b: Maybe, u: Maybe, p: Maybe)
    requires ArrayNode(b, u, p) && Alike(b, u, Merge(b, u, p), p)
    requires ArrayKey([ItemsOf(b), ItemsOf(Merge(b, u, p)), ItemsOf(p)]) != ArrayKey([ItemsOf(b), ItemsOf(u), ItemsOf(p)])
    ensures Silent(b, u, p) && SilentAfter(b, b, u, p, p)
  {
    var m := Merge(b, u, p);
    if m == b { BackToBase(b, u, p); }
    forall path ensures ClashAt(b, u, p, path).None? && ClashAt(b, m, p, path).None? {
      assert AlikeAt(b, u, m, p, path);
      if ClashAt(b, u, p, path).Some? {
        ReportsBelow(b, u, p, path);
        ReportsBelow(b, m, p, path);
      }
    }
    SilentIf(b, u, p);
    SilentIf(b, m, p);
    SilentAfterExact(b, b, u, p, p);
  }

  /** A second merge reports the conflicts of the first, at the same paths, exactly when the three trees
      say so. */
  lemma SameReportsExact(b: Maybe, u: Maybe, p: Maybe)
    ensures Alike(b, u, Merge(b, u, p), p) <==> SameReports(b, u, p)
  {
    if SameReports(b, u, p) {
      forall path ensures AlikeAt(b, u, Merge(b, u, p), p, path) {
        SameReportsAt(b, u, p, path);
      }
    }
    if Alike(b, u, Merge(b, u, p), p) {
      SameReportsIf(b, u, p);
    }
  }

  // ---------------------------------------------------------------- trees of one shape

  /** Wherever the merge meets three arrays, a field that identifies the base's and the preset's
      items also identifies the user's. A caller can test this before merging. */
  predicate SameShape(b: Maybe, u: Maybe, p: Maybe)
    decreases u.Present?, ValueOf(u)
  {
    && (ObjectNode(b, u, p) ==>
          forall k | k in Keys(b, u, p) ::
            SameShape(M.Field(b, k), M.Field(u, k), M.Field(p, k)))
    && (ArrayNode(b, u, p) ==> SameShapeItems(ItemsOf(b), ItemsOf(u), ItemsOf(p)))
  }

  predicate SameShapeItems(b: seq<Value>, u: seq<Value>, p: seq<Value>)
    decreases true, Arr(u), 2
  {
    && (forall key | key in {"tag", "name", "id"} :: KeyedBy(b, key) && KeyedBy(p, key) ==> KeyedBy(u, key))
    && match ArrayKey([b, u, p])
       case None => true
       case Some(key) => forall id | id in Order(u, p, key) ::
         SameShapeItem(b, u, p, key, id)
  }

  predicate SameShapeItem(b: seq<Value>, u: seq<Value>, p: seq<Value>, key: string, id: string)
    decreases true, Arr(u), 0
  {
    SameShape(Lookup(b, key, id), Lookup(u, key, id), Lookup(p, key, id))
  }

  /** With such a user tree the merged array is identified as the user's was. */
  lemma SameKeyAgain(b: seq<Value>, u: seq<Value>, p: seq<Value>)
    requires SameShapeItems(b, u, p)
    ensures ArrayKey([b, MergeItems(b, u, p), p]) == ArrayKey([b, u, p])
  {
    var m := MergeItems(b, u, p);
    ArrayKey3(b, u, p);
    ArrayKey3(b, m, p);
    if ArrayKey([b, u, p]).Some? {
      var key := ArrayKey([b, u, p]).value;
      MergedArray(b, u, p, key);
      if b == p == [] {
        LookupAt(u, key, 0);
        var id := IdOf(u[0], key);
        assert Lookup(b, key, id) == Missing == Lookup(p, key, id);
        assert MergeItem(b, u, p, key, id) == Lookup(u, key, id);
        assert Lookup(m, key, id).Present?;
      }
    }
  }

  lemma {:induction false} SameShapeAgain(b: Maybe, u: Maybe, p: Maybe)
    requires SameShape(b, u, p)
    ensures Merge(b, Merge(b, u, p), p) == Merge(b, u, p)
    decreases u.Present?, ValueOf(u), 3
  {
    var m := Merge(b, u, p);
    if ObjectNode(b, u, p) {
      forall k ensures Merge(M.Field(b, k), M.Field(m, k), M.Field(p, k)) == M.Field(m, k) {
        MergedField(b, u, p, k);
        if k in Keys(b, u, p) {
          SameShapeAgain(M.Field(b, k), M.Field(u, k), M.Field(p, k));
        }
      }
      FieldsRest(b, m, p, Keys(b, u, p));
    } else if ArrayNode(b, u, p) {
      SameShapeItemsAgain(ItemsOf(b), ItemsOf(u), ItemsOf(p));
      if m == b { BackToBase(b, u, p); }
    }
  }

  lemma {:induction false} SameShapeItemsAgain(b: seq<Value>, u: seq<Value>, p: seq<Value>)
    requires SameShapeItems(b, u, p)
    ensures var m := MergeItems(b, u, p); MergeItems(b, m, p) == m
    decreases true, Arr(u), 2
  {
    var m := MergeItems(b, u, p);
    SameKeyAgain(b, u, p);
    match ArrayKey([b, u, p])
    case None => UnkeyedRemerge(b, u, p);
    case Some(key) =>
      MergedArray(b, u, p, key);
      KeyedSettled(b, m, p, key);
      forall id ensures MergeItem(b, m, p, key, id) == Lookup(m, key, id) {
        var bv, uv, pv := Lookup(b, key, id), Lookup(u, key, id), Lookup(p, key, id);
        OrderedIds(b, u, p, key, id);
        if id in Order(u, p, key) && !AddedTwice(bv, uv, pv) {
          assert SameShapeItem(b, u, p, key, id);
          SameShapeAgain(bv, uv, pv);
          NotAddedTwice(bv, uv, pv);
        }
      }
  }

  lemma {:induction false} SameShapeReports(b: Maybe, u: Maybe, p: Maybe)
    requires SameShape(b, u, p)
    ensures SameReports(b, u, p)
    decreases u.Present?, ValueOf(u)
  {
    if ObjectNode(b, u, p) {
      forall k | k in Keys(b, u, p) ensures SameReports(M.Field(b, k), M.Field(u, k), M.Field(p, k)) {
        SameShapeReports(M.Field(b, k), M.Field(u, k), M.Field(p, k));
      }
    } else if ArrayNode(b, u, p) {
      var bi, ui, pi := ItemsOf(b), ItemsOf(u), ItemsOf(p);
      SameKeyAgain(bi, ui, pi);
      PairedAlikeExact(bi, ui, pi);
      if ArrayKey([bi, ui, pi]).Some? {
        var key := ArrayKey([bi, ui, pi]).value;
        forall id | id in Order(ui, pi, key) ensures SameItemReport(bi, ui, pi, key, id) {
          assert SameShapeItem(bi, ui, pi, key, id);
          SameShapeReports(Lookup(bi, key, id), Lookup(ui, key, id), Lookup(pi, key, id));
        }
      }
    }
  }

  /** A user tree of the base's and the preset's shape passes both tests, and merging again changes
      nothing and reports the same conflicts. */
  lemma RemergeReportsSame(b: Maybe, u: Maybe, p: Maybe)
    requires SameShape(b, u, p)
    ensures Steady(b, u, p) && SameReports(b, u, p)
    ensures Merge(b, Merge(b, u, p), p) == Merge(b, u, p)
    ensures Alike(b, u, Merge(b, u, p), p)
  {
    SameShapeAgain(b, u, p);
    RemergeExact(b, u, p);
    SameShapeReports(b, u, p);
    SameReportsExact(b, u, p);
  }

  // ---------------------------------------------------------------- trees whose second merge differs

  /** Three items with one tag: the base's `o`, the user's `x` under another name, and the preset's
      `y` under the user's name with a field neither `o` nor `x` has. */
  ghost predicate Crossed(o: Value, x: Value, y: Value, extra: string) {
    && Tagged(o, "tag") && Tagged(x, "tag") && Tagged(y, "tag")
    && Tagged(o, "name") && Tagged(x, "name") && Tagged(y, "name")
    && IdOf(o, "tag") == IdOf(x, "tag") == IdOf(y, "tag")
    && IdOf(o, "name") != IdOf(x, "name") == IdOf(y, "name")
    && extra in y.fields && extra !in o.fields && extra !in x.fields
  }

  lemma PairedByName(o: Value, x: Value, y: Value, extra: string)
    requires Crossed(o, x, y, extra)
    ensures ArrayKey([[o], [x, o], [y]]) == Some("name")
    ensures ArrayKey([[o], [x], [y]]) == Some("tag")
  {
    ArrayKey3([o], [x, o], [y]);
    ArrayKey3([o], [x], [y]);
    assert !KeyedBy([x, o], "tag") by { assert IdOf([x, o][0], "tag") == IdOf([x, o][1], "tag"); }
    assert KeyedBy([o], "tag") && KeyedBy([y], "tag");
  }

  lemma CollectFirst(f: string -> Maybe, i: string, j: string, v: Value)
    requires f(i) == Present(v) && f(j) == Missing
    ensures Collect(f, [i, j]) == [v]
  {
    assert [i, j][1..] == [j] && [j][1..] == [];
    assert Collect(f, [j]) == [];
  }

  lemma KeepsUsersItem(o: Value, x: Value, y: Value, extra: string)
    requires Crossed(o, x, y, extra)
    ensures MergeItems([o], [x, o], [y]) == [x]
  {
    PairedByName(o, x, y, extra);
    var b, u, p, i, j := [o], [x, o], [y], IdOf(x, "name"), IdOf(o, "name");
    UsersOrder(o, x, y);
    UsersItems(o, x, y, extra);
    MergeOrderCollects(b, u, p, "name", [i, j]);
    CollectFirst(Items(b, u, p, "name"), i, j, x);
  }

  lemma UsersOrder(o: Value, x: Value, y: Value)
    requires IdOf(x, "name") == IdOf(y, "name")
    ensures Order([x, o], [y], "name") == [IdOf(x, "name"), IdOf(o, "name")]
  {
    var i, j := IdOf(x, "name"), IdOf(o, "name");
    assert Ids([x, o], "name") == [i, j] && Ids([y], "name") == [i];
    assert Without([i], [i, j]) == [] by { assert [i][1..] == []; }
  }

  lemma UsersItems(o: Value, x: Value, y: Value, extra: string)
    requires Crossed(o, x, y, extra)
    ensures Items([o], [x, o], [y], "name")(IdOf(x, "name")) == Present(x)
    ensures Items([o], [x, o], [y], "name")(IdOf(o, "name")) == Missing
  {
    var j := IdOf(o, "name");
    assert [x, o][1..] == [o] && [y][1..] == [];
    assert Lookup([x, o], "name", j) == Present(o) == Lookup([o], "name", j);
    assert Lookup([y], "name", j) == Missing;
    assert MergeItem([o], [x, o], [y], "name", j) == Merge(Present(o), Present(o), Missing);
  }

  lemma PairedByTag(o: Value, x: Value, y: Value, extra: string)
    requires Crossed(o, x, y, extra)
    ensures !SettledItems([o], [x], [y])
  {
    PairedByName(o, x, y, extra);
    var id := IdOf(x, "tag");
    assert Ids([x], "tag") == [id];
    assert id in Order([x], [y], "tag");
    assert extra in Keys(Present(o), Present(x), Present(y));
    assert !Settled(Present(o), Present(x), Present(y));
    assert !SettledItem([o], [x], [y], "tag", id);
  }

  /** The user has two items with one tag, of which the preset drops one. The first merge pairs by
      name and keeps the user's item; the second pairs by tag and changes it. */
  lemma SecondMergeCanChange(o: Value, x: Value, y: Value, extra: string)
    requires Crossed(o, x, y, extra)
    ensures var b, u, p := Present(Arr([o])), Present(Arr([x, o])), Present(Arr([y]));
      && !Steady(b, u, p)
      && Merge(b, u, p) == Present(Arr([x]))
      && Merge(b, Merge(b, u, p), p) != Merge(b, u, p)
  {
    var b, u, p := Present(Arr([o])), Present(Arr([x, o])), Present(Arr([y]));
    PairedByName(o, x, y, extra);
    KeepsUsersItem(o, x, y, extra);
    PairedByTag(o, x, y, extra);
    assert ArrayNode(b, u, p) by { assert [o] != [x, o] && [y] != [x, o] && [o][0] != [y][0]; }
    assert ArrayNode(b, Present(Arr([x])), p) by { assert [o][0] != [x][0] && [y][0] != [x][0] && [o][0] != [y][0]; }
    SettledExact(b, Present(Arr([x])), p);
    RemergeExact(b, u, p);
  }

  lemma UnpairedMerge(o: Value, x: Value)
    requires o != x && Tagged(o, "tag") && Tagged(x, "tag") && IdOf(o, "tag") == IdOf(x, "tag")
    requires !Tagged(o, "name") && !Tagged(o, "id")
    ensures ArrayKey([[o], [o, x], []]).None?
    ensures ArrayKey([[o], [x], []]) == Some("tag")
    ensures MergeItems([o], [o, x], []) == [x]
  {
    var b, u, p: seq<Value> := [o], [o, x], [];
    assert IdOf(u[0], "tag") == IdOf(u[1], "tag");
    assert !Tagged(u[0], "name") && !Tagged(u[0], "id");
    ArrayKey3(b, u, p);
    ArrayKey3(b, [x], p);
    assert u[1..] == [x];
    assert Kept(u[1..], b, p) == [x] by { assert u[1..][1..] == []; }
    assert KeyedBy(b, "tag") && KeyedBy(p, "tag") && !KeyedBy(u, "tag");
  }

  /** The user has two items with one tag, one of them the base's, which the preset drops. The first
      merge finds no field to pair by and reports nothing; the second reports a conflict. */
  lemma SecondMergeCanReport(o: Value, x: Value)
    requires o != x && Tagged(o, "tag") && Tagged(x, "tag") && IdOf(o, "tag") == IdOf(x, "tag")
    requires !Tagged(o, "name") && !Tagged(o, "id")
    ensures var b, u, p := Present(Arr([o])), Present(Arr([o, x])), Present(Arr([]));
      && Merge(b, u, p) == Present(Arr([x]))
      && (forall path :: ClashAt(b, u, p, path).None?)
      && ClashAt(b, Merge(b, u, p), p, [Item("tag", IdOf(o, "tag"))]).Some?
      && !SameReports(b, u, p)
  {
    var b, u, p := Present(Arr([o])), Present(Arr([o, x])), Present(Arr([]));
    UnpairedMerge(o, x);
    assert ArrayNode(b, u, p) by { assert [o] != [o, x]; }
    assert ArrayNode(b, Present(Arr([x])), p) by { assert [o][0] != [x][0]; }
    assert Lookup([o], "tag", IdOf(o, "tag")) == Present(o);
    assert Lookup([x], "tag", IdOf(o, "tag")) == Present(x);
    var path := [Item("tag", IdOf(o, "tag"))];
    assert ClashAt(b, u, p, path).None? && ClashAt(b, Merge(b, u, p), p, path).Some?;
    assert !AlikeAt(b, u, Merge(b, u, p), p, path);
    SameReportsExact(b, u, p);
  }
}
