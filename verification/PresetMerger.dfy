/** The merge as the program runs it: recursive procedures that build their results in loops and
    push conflicts onto one shared list. Each is proved against the merge function and against the
    path-by-path account of conflicts. */
module PresetMerger {
  import opened Options
  import opened PresetTree
  import M = PresetMerge
  import opened PresetConflicts

  datatype Entry = Entry(path: Path, clash: Clash)

  class ConflictLog {
    var entries: seq<Entry>

    constructor ()
      ensures entries == []
    {
      entries := [];
    }

    method Push(entry: Entry)
      modifies this
      ensures entries == old(entries) + [entry]
    {
      entries := entries + [entry];
    }
  }

  ghost predicate DistinctPaths(added: seq<Entry>) {
    forall i, j | 0 <= i < j < |added| :: added[i].path != added[j].path
  }

  /** The entry reports a conflict the merge of the three trees at `path` meets. */
  ghost predicate Genuine(e: Entry, path: Path, b: Maybe, u: Maybe, p: Maybe) {
    path <= e.path && ClashAt(b, u, p, e.path[|path|..]) == Some(e.clash)
  }

  /** The entries report every conflict below `path`, each exactly once. */
  ghost predicate Exact(added: seq<Entry>, path: Path, b: Maybe, u: Maybe, p: Maybe) {
    && DistinctPaths(added)
    && (forall i | 0 <= i < |added| :: Genuine(added[i], path, b, u, p))
    && (forall rest | ClashAt(b, u, p, rest).Some? ::
          exists i :: 0 <= i < |added| && added[i].path == path + rest)
  }

  /** The same, for the conflicts whose first step below `path` is one of `steps`. */
  ghost predicate ExactPart(added: seq<Entry>, path: Path, b: Maybe, u: Maybe, p: Maybe, steps: set<Step>) {
    && DistinctPaths(added)
    && (forall i | 0 <= i < |added| ::
          Genuine(added[i], path, b, u, p) && |path| < |added[i].path| && added[i].path[|path|] in steps)
    && (forall rest | ClashAt(b, u, p, rest).Some? && rest != [] && rest[0] in steps ::
          exists i :: 0 <= i < |added| && added[i].path == path + rest)
  }

  lemma ExactJoin(added: seq<Entry>, more: seq<Entry>, path: Path, b: Maybe, u: Maybe, p: Maybe,
                  steps: set<Step>, s: Step)
    requires ExactPart(added, path, b, u, p, steps) && ExactPart(more, path, b, u, p, {s}) && s !in steps
    ensures ExactPart(added + more, path, b, u, p, steps + {s})
  {
    var all := added + more;
    forall i, j | 0 <= i < j < |all| ensures all[i].path != all[j].path {
      if i < |added| <= j {
        assert all[i].path[|path|] in steps && all[j].path[|path|] == s;
      }
    }
    forall rest | ClashAt(b, u, p, rest).Some? && rest != [] && rest[0] in steps + {s}
      ensures exists i :: 0 <= i < |all| && all[i].path == path + rest {
      if rest[0] in steps {
        var i :| 0 <= i < |added| && added[i].path == path + rest;
        assert all[i].path == path + rest;
      } else {
        var i :| 0 <= i < |more| && more[i].path == path + rest;
        assert all[|added| + i].path == path + rest;
      }
    }
  }

  lemma ExactLift(more: seq<Entry>, path: Path, b: Maybe, u: Maybe, p: Maybe, s: Step)
    requires Exact(more, path + [s], At1(b, s), At1(u, s), At1(p, s))
    requires forall rest :: ClashAt(b, u, p, [s] + rest) == ClashAt(At1(b, s), At1(u, s), At1(p, s), rest)
    ensures ExactPart(more, path, b, u, p, {s})
  {
    forall i | 0 <= i < |more|
      ensures Genuine(more[i], path, b, u, p) && |path| < |more[i].path| && more[i].path[|path|] == s {
      GenuineLift(more[i], path, b, u, p, s);
    }
    forall rest | ClashAt(b, u, p, rest).Some? && rest != [] && rest[0] in {s}
      ensures exists i :: 0 <= i < |more| && more[i].path == path + rest {
      ReachedLift(more, path, b, u, p, s, rest);
    }
  }

  lemma ReachedLift(more: seq<Entry>, path: Path, b: Maybe, u: Maybe, p: Maybe, s: Step, rest: Path)
    requires Exact(more, path + [s], At1(b, s), At1(u, s), At1(p, s))
    requires forall rest :: ClashAt(b, u, p, [s] + rest) == ClashAt(At1(b, s), At1(u, s), At1(p, s), rest)
    requires ClashAt(b, u, p, rest).Some? && rest != [] && rest[0] == s
    ensures exists i :: 0 <= i < |more| && more[i].path == path + rest
  {
    PathStep(path, s, rest);
    assert ClashAt(b, u, p, [s] + rest[1..]).Some?;
    var i :| 0 <= i < |more| && more[i].path == (path + [s]) + rest[1..];
  }

  lemma PathStep(path: Path, s: Step, rest: Path)
    requires rest != [] && rest[0] == s
    ensures rest == [s] + rest[1..] && (path + [s]) + rest[1..] == path + rest
  {
  }

  lemma GenuineLift(e: Entry, path: Path, b: Maybe, u: Maybe, p: Maybe, s: Step)
    requires Genuine(e, path + [s], At1(b, s), At1(u, s), At1(p, s))
    requires forall rest :: ClashAt(b, u, p, [s] + rest) == ClashAt(At1(b, s), At1(u, s), At1(p, s), rest)
    ensures Genuine(e, path, b, u, p) && |path| < |e.path| && e.path[|path|] == s
  {
    PathLift(path, s, e.path);
    var rest := e.path[|path| + 1..];
    assert ClashAt(b, u, p, [s] + rest) == ClashAt(At1(b, s), At1(u, s), At1(p, s), rest);
  }

  lemma PathLift(path: Path, s: Step, whole: Path)
    requires path + [s] <= whole
    ensures path <= whole && |path| < |whole| && whole[|path|] == s
    ensures whole[|path|..] == [s] + whole[|path| + 1..] && whole[|path + [s]|..] == whole[|path| + 1..]
  {
    assert (path + [s])[|path|] == s && whole[..|path| + 1] == path + [s];
    assert whole[..|path|] == (path + [s])[..|path|] == path;
  }

  method MergeValue(base: Maybe, user: Maybe, preset: Maybe, path: Path, conflicts: ConflictLog)
    returns (m: Maybe, ghost added: seq<Entry>)
    modifies conflicts
    ensures m == M.Merge(base, user, preset)
    ensures conflicts.entries == old(conflicts.entries) + added
    ensures Exact(added, path, base, user, preset)
    decreases user.Present?, ValueOf(user)
  {
    added := [];
    if user == base { return preset, added; }
    if preset == base || user == preset { return user, added; }
    if base.Missing? {
      if user.value.Obj? && preset.value.Obj? {
        m, added := MergeObject(base, user, preset, path, conflicts);
        return;
      }
      if user.value.Arr? && preset.value.Arr? {
        m, added := MergeArray(base, user, preset, path, conflicts);
        return;
      }
      ExactNone(path, base, user, preset);
      return user, added;
    }
    if user.Missing? || preset.Missing? {
      added := Conflict(path, base, user, preset, BothChanged, conflicts);
      ExactOne(path, base, user, preset);
      return user, added;
    }
    if base.value.Obj? && user.value.Obj? && preset.value.Obj? {
      m, added := MergeObject(base, user, preset, path, conflicts);
      return;
    }
    if base.value.Arr? && user.value.Arr? && preset.value.Arr? {
      m, added := MergeArray(base, user, preset, path, conflicts);
      return;
    }
    added := Conflict(path, base, user, preset, BothChanged, conflicts);
    ExactOne(path, base, user, preset);
    m := user;
  }

  method Conflict(path: Path, base: Maybe, user: Maybe, preset: Maybe, reason: Reason, conflicts: ConflictLog)
    returns (ghost added: seq<Entry>)
    modifies conflicts
    ensures added == [Entry(path, Clash(reason, base, user, preset))]
    ensures conflicts.entries == old(conflicts.entries) + added
  {
    added := [Entry(path, Clash(reason, base, user, preset))];
    conflicts.Push(Entry(path, Clash(reason, base, user, preset)));
  }

  method MergeObject(base: Maybe, user: Maybe, preset: Maybe, path: Path, conflicts: ConflictLog)
    returns (m: Maybe, ghost added: seq<Entry>)
    requires M.ObjectNode(base, user, preset)
    modifies conflicts
    ensures m == M.Merge(base, user, preset)
    ensures conflicts.entries == old(conflicts.entries) + added
    ensures Exact(added, path, base, user, preset)
    decreases user.Present?, ValueOf(user), 0
  {
    added := [];
    var result: map<string, Value> := map[];
    var keys := M.Keys(base, user, preset);
    var rest := keys;
    ghost var done: set<Step> := {};
    while rest != {}
      invariant rest <= keys
      invariant forall k | k in keys :: Field(k) in done <==> k !in rest
      invariant result.Keys <= keys - rest
      invariant forall k | k in keys && k !in rest ::
        Get(result, k) == M.Merge(M.Field(base, k), M.Field(user, k), M.Field(preset, k))
      invariant conflicts.entries == old(conflicts.entries) + added
      invariant ExactPart(added, path, base, user, preset, done)
      decreases rest
    {
      var key :| key in rest;
      ghost var more;
      var value;
      value, more := MergeValue(M.Field(base, key), M.Field(user, key), M.Field(preset, key),
                                path + [Field(key)], conflicts);
      if value.Present? {
        result := result[key := value.value];
      }
      ExactLift(more, path, base, user, preset, Field(key));
      ExactJoin(added, more, path, base, user, preset, done, Field(key));
      Regroup(old(conflicts.entries), added, more);
      added := added + more;
      rest, done := rest - {key}, done + {Field(key)};
    }
    m := Present(Obj(result));
    MergedFields(base, user, preset, result);
    forall tail: Path | ClashAt(base, user, preset, tail).Some? ensures tail != [] && tail[0] in done {
      ClashField(base, user, preset, tail);
    }
    ExactAll(added, path, base, user, preset, done);
  }

  lemma MergedFields(b: Maybe, u: Maybe, p: Maybe, result: map<string, Value>)
    requires M.ObjectNode(b, u, p) && result.Keys <= M.Keys(b, u, p)
    requires forall k | k in M.Keys(b, u, p) ::
      Get(result, k) == M.Merge(M.Field(b, k), M.Field(u, k), M.Field(p, k))
    ensures M.Merge(b, u, p) == Present(Obj(result))
  {
    forall k | k in M.Keys(b, u, p) ensures M.Field(M.Merge(b, u, p), k) == Get(result, k) {
      M.MergedField(b, u, p, k);
    }
    M.SameFields(Present(Obj(result)), M.Merge(b, u, p), M.Keys(b, u, p));
  }

  method MergeArray(base: Maybe, user: Maybe, preset: Maybe, path: Path, conflicts: ConflictLog)
    returns (m: Maybe, ghost added: seq<Entry>)
    requires M.ArrayNode(base, user, preset)
    modifies conflicts
    ensures m == M.Merge(base, user, preset)
    ensures conflicts.entries == old(conflicts.entries) + added
    ensures Exact(added, path, base, user, preset)
    decreases user.Present?, ValueOf(user), 1
  {
    var b, u, p := M.ItemsOf(base), user.value.items, preset.value.items;
    var key := ArrayKey([b, u, p]);
    if key.Some? {
      var items;
      items, added := MergeKeyedArray(base, user, preset, path, key.value, conflicts);
      return Present(Arr(items)), added;
    }
    added := [];
    var items := MergeUnkeyedArray(b, u, p);
    m := Present(Arr(items));
  }

  /** Drops the user's items that the preset removed from the base; then appends the preset's new
      ones. */
  method MergeUnkeyedArray(base: seq<Value>, user: seq<Value>, preset: seq<Value>) returns (result: seq<Value>)
    ensures result == M.Kept(user, base, preset) + M.Added(preset, base, M.Kept(user, base, preset))
  {
    var baseKeys := set v | v in base;
    var kept := DropRemoved(base, user, preset, baseKeys);
    result := kept;
    var resultKeys := set v | v in result;
    for i := 0 to |preset|
      invariant forall v :: v in resultKeys <==> v in result
      invariant result + M.Added(preset[i..], base, result) == kept + M.Added(preset, base, kept)
    {
      var value := preset[i];
      AddedStep(preset, base, result, i);
      if value !in baseKeys && value !in resultKeys {
        result := result + [value];
        resultKeys := resultKeys + {value};
      }
    }
  }

  /** Walks the copy of the user's array from the back, cutting items out in place. */
  method DropRemoved(base: seq<Value>, user: seq<Value>, preset: seq<Value>, baseKeys: set<Value>)
    returns (result: seq<Value>)
    requires forall v :: v in baseKeys <==> v in base
    ensures result == M.Kept(user, base, preset)
  {
    var presetKeys := set v | v in preset;
    result := user;
    assert user[..|user|] + M.Kept(user[|user|..], base, preset) == user;
    for index := |user| downto 0
      invariant result == user[..index] + M.Kept(user[index..], base, preset)
    {
      DropStep(user, base, preset, index, result);
      if result[index] in baseKeys && result[index] !in presetKeys {
        result := result[..index] + result[index + 1..];
      }
    }
    assert user[..0] + M.Kept(user[0..], base, preset) == M.Kept(user, base, preset) by {
      assert user[0..] == user;
    }
  }

  lemma DropStep(user: seq<Value>, base: seq<Value>, preset: seq<Value>, i: nat, r: seq<Value>)
    requires i < |user| && r == user[..i + 1] + M.Kept(user[i + 1..], base, preset)
    ensures i < |r| && r[i] == user[i]
    ensures user[..i] + M.Kept(user[i..], base, preset) ==
            if user[i] in base && user[i] !in preset then r[..i] + r[i + 1..] else r
  {
    var tail := M.Kept(user[i + 1..], base, preset);
    KeptStep(user, base, preset, i);
    CutStep(user, i, tail);
    KeepOrCut(user, i, tail, M.Kept(user[i..], base, preset), user[i] in base && user[i] !in preset);
  }

  lemma KeepOrCut<T>(s: seq<T>, i: nat, tail: seq<T>, kept: seq<T>, cut: bool)
    requires i < |s| && kept == (if cut then [] else [s[i]]) + tail
    ensures s[..i] + kept == if cut then s[..i] + tail else s[..i] + ([s[i]] + tail)
  {
    assert [] + tail == tail;
  }

  lemma CutStep<T>(s: seq<T>, i: nat, tail: seq<T>)
    requires i < |s|
    ensures var r := s[..i + 1] + tail;
      && r[i] == s[i]
      && r[..i] + r[i + 1..] == s[..i] + tail
      && r == s[..i] + ([s[i]] + tail)
  {
  }

  lemma KeptStep(user: seq<Value>, base: seq<Value>, preset: seq<Value>, i: nat)
    requires i < |user|
    ensures M.Kept(user[i..], base, preset) ==
            (if user[i] in base && user[i] !in preset then [] else [user[i]]) + M.Kept(user[i + 1..], base, preset)
  {
    assert user[i..] == [user[i]] + user[i + 1..];
  }

  lemma AddedStep(preset: seq<Value>, base: seq<Value>, seen: seq<Value>, i: nat)
    requires i < |preset|
    ensures seen + M.Added(preset[i..], base, seen) ==
            if preset[i] in base || preset[i] in seen then seen + M.Added(preset[i + 1..], base, seen)
            else seen + [preset[i]] + M.Added(preset[i + 1..], base, seen + [preset[i]])
  {
    assert preset[i..] == [preset[i]] + preset[i + 1..];
  }

  ghost predicate Indexes(m: map<string, Value>, values: seq<Value>, key: string) {
    forall id :: Get(m, id) == Lookup(values, key, id)
  }

  /** The index from id to item; a later item would replace an earlier one. */
  method Keyed(values: seq<Value>, key: string) returns (m: map<string, Value>)
    requires KeyedBy(values, key)
    ensures Indexes(m, values, key)
  {
    m := map[];
    for i := 0 to |values|
      invariant forall id :: id in m <==> exists j :: 0 <= j < i && HasId(values[j], key, id)
      invariant forall j | 0 <= j < i :: Get(m, IdOf(values[j], key)) == Present(values[j])
    {
      m := m[IdOf(values[i], key) := values[i]];
    }
    forall id ensures Get(m, id) == Lookup(values, key, id) {
      if id in m {
        var j :| 0 <= j < |values| && HasId(values[j], key, id);
        LookupAt(values, key, j);
      } else {
        LookupMissing(values, key, id);
      }
    }
  }

  method MergeKeyedArray(base: Maybe, user: Maybe, preset: Maybe, path: Path, key: string, conflicts: ConflictLog)
    returns (result: seq<Value>, ghost added: seq<Entry>)
    requires M.ArrayNode(base, user, preset)
    requires ArrayKey([M.ItemsOf(base), M.ItemsOf(user), M.ItemsOf(preset)]) == Some(key)
    modifies conflicts
    ensures result == M.MergeItems(M.ItemsOf(base), M.ItemsOf(user), M.ItemsOf(preset))
    ensures conflicts.entries == old(conflicts.entries) + added
    ensures Exact(added, path, base, user, preset)
    decreases user.Present?, ValueOf(user), 0
  {
    var b, u, p := M.ItemsOf(base), M.ItemsOf(user), M.ItemsOf(preset);
    KeyedOrder(b, u, p, key);
    var baseMap := Keyed(b, key);
    var userMap := Keyed(u, key);
    var presetMap := Keyed(p, key);
    var order := M.Order(u, p, key);
    ghost var done: set<Step>;
    result, added, done := MergeInOrder(base, user, preset, baseMap, userMap, presetMap, path, key, order, conflicts);
    KeyedDone(base, user, preset, path, key, order, result, added, done);
  }

  /** The loop over the ids. */
  method MergeInOrder(base: Maybe, user: Maybe, preset: Maybe,
                      baseMap: map<string, Value>, userMap: map<string, Value>, presetMap: map<string, Value>,
                      path: Path, key: string, order: seq<string>, conflicts: ConflictLog)
    returns (result: seq<Value>, ghost added: seq<Entry>, ghost done: set<Step>)
    requires M.ArrayNode(base, user, preset) && Distinct(order)
    requires ArrayKey([M.ItemsOf(base), M.ItemsOf(user), M.ItemsOf(preset)]) == Some(key)
    requires Indexes(baseMap, M.ItemsOf(base), key) && Indexes(userMap, M.ItemsOf(user), key)
    requires Indexes(presetMap, M.ItemsOf(preset), key)
    modifies conflicts
    ensures conflicts.entries == old(conflicts.entries) + added
    ensures KeyedSoFar(base, user, preset, path, key, order, |order|, result, added, done)
    decreases user.Present?, ValueOf(user), -1, 2
  {
    result, added, done := [], [], {};
    KeyedStart(base, user, preset, path, key, order);
    for i := 0 to |order|
      invariant conflicts.entries == old(conflicts.entries) + added
      invariant KeyedSoFar(base, user, preset, path, key, order, i, result, added, done)
    {
      ghost var more;
      result, more := MergeNext(base, user, preset, baseMap, userMap, presetMap, path, key, order, i, conflicts,
                                result, added, done);
      Regroup(old(conflicts.entries), added, more);
      added, done := added + more, done + {Item(key, order[i])};
    }
  }

  lemma KeyedStart(base: Maybe, user: Maybe, preset: Maybe, path: Path, key: string, order: seq<string>)
    ensures KeyedSoFar(base, user, preset, path, key, order, 0, [], [], {})
  {
    assert order[0..] == order;
  }

  lemma KeyedDone(base: Maybe, user: Maybe, preset: Maybe, path: Path, key: string, order: seq<string>,
                  result: seq<Value>, added: seq<Entry>, done: set<Step>)
    requires M.ArrayNode(base, user, preset)
    requires ArrayKey([M.ItemsOf(base), M.ItemsOf(user), M.ItemsOf(preset)]) == Some(key)
    requires order == M.Order(M.ItemsOf(user), M.ItemsOf(preset), key)
    requires KeyedSoFar(base, user, preset, path, key, order, |order|, result, added, done)
    ensures result == M.MergeItems(M.ItemsOf(base), M.ItemsOf(user), M.ItemsOf(preset))
    ensures Exact(added, path, base, user, preset)
  {
    assert order[..|order|] == order && order[|order|..] == [];
    AllIds(added, path, base, user, preset, key, done);
  }

  /** The items merged so far are the merge of the first ids, and their conflicts are listed. */
  ghost predicate KeyedSoFar(base: Maybe, user: Maybe, preset: Maybe, path: Path, key: string, order: seq<string>, i: nat,
                             result: seq<Value>, added: seq<Entry>, done: set<Step>)
    requires i <= |order|
  {
    var b, u, p := M.ItemsOf(base), M.ItemsOf(user), M.ItemsOf(preset);
    && StepsOf(done, key, order[..i])
    && result + M.MergeOrder(b, u, p, key, order[i..]) == M.MergeOrder(b, u, p, key, order)
    && ExactPart(added, path, base, user, preset, done)
  }

  lemma KeyedTurn(base: Maybe, user: Maybe, preset: Maybe, path: Path, key: string, order: seq<string>, i: nat,
                  result: seq<Value>, added: seq<Entry>, done: set<Step>, more: seq<Entry>)
    requires i < |order| && Distinct(order)
    requires KeyedSoFar(base, user, preset, path, key, order, i, result, added, done)
    requires ExactPart(more, path, base, user, preset, {Item(key, order[i])})
    ensures var v := M.MergeItem(M.ItemsOf(base), M.ItemsOf(user), M.ItemsOf(preset), key, order[i]);
      KeyedSoFar(base, user, preset, path, key, order, i + 1, result + (if v.Present? then [v.value] else []),
                 added + more, done + {Item(key, order[i])})
  {
    assert result + [] == result;
    OrderStep(M.ItemsOf(base), M.ItemsOf(user), M.ItemsOf(preset), key, order, i, result);
    DoneStep(done, key, order, i);
    ExactJoin(added, more, path, base, user, preset, done, Item(key, order[i]));
  }

  lemma KeyedOrder(b: seq<Value>, u: seq<Value>, p: seq<Value>, key: string)
    requires ArrayKey([b, u, p]) == Some(key)
    ensures KeyedBy(b, key) && KeyedBy(u, key) && KeyedBy(p, key) && Distinct(M.Order(u, p, key))
  {
    ArrayKey3(b, u, p);
    M.OrderFacts(u, p, key);
  }

  /** The steps to the first items of an order. */
  ghost predicate StepsOf(done: set<Step>, key: string, ids: seq<string>) {
    forall s :: s in done <==> s.Item? && s.key == key && s.id in ids
  }

  lemma DoneStep(done: set<Step>, key: string, order: seq<string>, i: nat)
    requires i < |order| && Distinct(order) && StepsOf(done, key, order[..i])
    ensures Item(key, order[i]) !in done && StepsOf(done + {Item(key, order[i])}, key, order[..i + 1])
  {
    assert order[..i + 1] == order[..i] + [order[i]];
  }

  lemma AllIds(added: seq<Entry>, path: Path, base: Maybe, user: Maybe, preset: Maybe, key: string, done: set<Step>)
    requires M.ArrayNode(base, user, preset)
    requires ArrayKey([M.ItemsOf(base), M.ItemsOf(user), M.ItemsOf(preset)]) == Some(key)
    requires ExactPart(added, path, base, user, preset, done)
    requires StepsOf(done, key, M.Order(M.ItemsOf(user), M.ItemsOf(preset), key))
    ensures Exact(added, path, base, user, preset)
  {
    forall tail: Path | ClashAt(base, user, preset, tail).Some? ensures tail != [] && tail[0] in done {
      ClashId(base, user, preset, tail);
    }
    ExactAll(added, path, base, user, preset, done);
  }

  /** One turn of the keyed loop. */
  method MergeNext(base: Maybe, user: Maybe, preset: Maybe,
                   baseMap: map<string, Value>, userMap: map<string, Value>, presetMap: map<string, Value>,
                   path: Path, key: string, order: seq<string>, i: nat, conflicts: ConflictLog,
                   result: seq<Value>, ghost added: seq<Entry>, ghost done: set<Step>)
    returns (next: seq<Value>, ghost more: seq<Entry>)
    requires M.ArrayNode(base, user, preset) && i < |order| && Distinct(order)
    requires ArrayKey([M.ItemsOf(base), M.ItemsOf(user), M.ItemsOf(preset)]) == Some(key)
    requires Indexes(baseMap, M.ItemsOf(base), key) && Indexes(userMap, M.ItemsOf(user), key)
    requires Indexes(presetMap, M.ItemsOf(preset), key)
    requires KeyedSoFar(base, user, preset, path, key, order, i, result, added, done)
    modifies conflicts
    ensures conflicts.entries == old(conflicts.entries) + more
    ensures KeyedSoFar(base, user, preset, path, key, order, i + 1, next, added + more, done + {Item(key, order[i])})
    decreases user.Present?, ValueOf(user), -1, 1
  {
    var value;
    var id := order[i];
    value, more := MergeKeyedItem(base, user, preset, Get(baseMap, id), Get(userMap, id), Get(presetMap, id),
                                  path, key, id, conflicts);
    KeyedTurn(base, user, preset, path, key, order, i, result, added, done, more);
    next := result + (if value.Present? then [value.value] else []);
  }

  method MergeKeyedItem(base: Maybe, user: Maybe, preset: Maybe,
                        baseValue: Maybe, userValue: Maybe, presetValue: Maybe,
                        path: Path, key: string, id: string, conflicts: ConflictLog)
    returns (value: Maybe, ghost added: seq<Entry>)
    requires M.ArrayNode(base, user, preset)
    requires ArrayKey([M.ItemsOf(base), M.ItemsOf(user), M.ItemsOf(preset)]) == Some(key)
    requires baseValue == At1(base, Item(key, id))
    requires userValue == At1(user, Item(key, id))
    requires presetValue == At1(preset, Item(key, id))
    modifies conflicts
    ensures value == M.MergeItem(M.ItemsOf(base), M.ItemsOf(user), M.ItemsOf(preset), key, id)
    ensures conflicts.entries == old(conflicts.entries) + added
    ensures ExactPart(added, path, base, user, preset, {Item(key, id)})
    decreases user.Present?, ValueOf(user), -1, 0
  {
    ghost var s := Item(key, id);
    if baseValue.Missing? && userValue.Present? && presetValue.Present? && userValue != presetValue {
      added := Conflict(path + [Item(key, id)], baseValue, userValue, presetValue, SameArrayKeyAdded, conflicts);
      assert added[0].path[|path|..] == [s];
      forall rest: Path | ClashAt(base, user, preset, rest).Some? && rest != [] && rest[0] in {s}
        ensures added[0].path == path + rest {
      }
      value := userValue;
    } else {
      value, added := MergeValue(baseValue, userValue, presetValue, path + [Item(key, id)], conflicts);
      ExactLift(added, path, base, user, preset, s);
    }
  }

  lemma OrderStep(b: seq<Value>, u: seq<Value>, p: seq<Value>, key: string, order: seq<string>, i: nat, result: seq<Value>)
    requires i < |order|
    ensures var v := M.MergeItem(b, u, p, key, order[i]);
      result + M.MergeOrder(b, u, p, key, order[i..]) ==
      (if v.Present? then result + [v.value] else result) + M.MergeOrder(b, u, p, key, order[i + 1..])
  {
    assert order[i..] == [order[i]] + order[i + 1..];
  }

  lemma ExactNone(path: Path, b: Maybe, u: Maybe, p: Maybe)
    requires b.Missing? && !M.ObjectNode(b, u, p) && !M.ArrayNode(b, u, p)
    ensures Exact([], path, b, u, p)
  {
    forall rest: Path ensures ClashAt(b, u, p, rest).None? {
    }
  }

  lemma ExactOne(path: Path, b: Maybe, u: Maybe, p: Maybe)
    requires b.Present? && Unmergeable(b, u, p)
    ensures Exact([Entry(path, Clash(BothChanged, b, u, p))], path, b, u, p)
  {
    var e := Entry(path, Clash(BothChanged, b, u, p));
    assert e.path[|path|..] == [];
    forall rest: Path | ClashAt(b, u, p, rest).Some? ensures [e][0].path == path + rest {
      assert rest == [];
    }
  }

  lemma Regroup<T>(a: seq<T>, b: seq<T>, c: seq<T>)
    ensures a + b + c == a + (b + c)
  {
  }

  lemma ExactAll(added: seq<Entry>, path: Path, b: Maybe, u: Maybe, p: Maybe, steps: set<Step>)
    requires ExactPart(added, path, b, u, p, steps)
    requires forall rest: Path | ClashAt(b, u, p, rest).Some? :: rest != [] && rest[0] in steps
    ensures Exact(added, path, b, u, p)
  {
  }

  /** A conflict under an object lies under a field one of the three sides has. */
  lemma ClashField(b: Maybe, u: Maybe, p: Maybe, path: Path)
    requires M.ObjectNode(b, u, p) && ClashAt(b, u, p, path).Some?
    ensures path != [] && path[0].Field? && path[0].name in M.Keys(b, u, p)
  {
  }

  /** A conflict under an identified array lies under an id the user or the preset has. */
  lemma ClashId(b: Maybe, u: Maybe, p: Maybe, path: Path)
    requires M.ArrayNode(b, u, p) && ClashAt(b, u, p, path).Some?
    ensures path != [] && path[0].Item?
    ensures ArrayKey([M.ItemsOf(b), M.ItemsOf(u), M.ItemsOf(p)]) == Some(path[0].key)
    ensures path[0].id in M.Order(M.ItemsOf(u), M.ItemsOf(p), path[0].key)
  {
    AllKeyed3(M.ItemsOf(b), M.ItemsOf(u), M.ItemsOf(p), path[0].key);
    ArrayKeySound([M.ItemsOf(b), M.ItemsOf(u), M.ItemsOf(p)]);
    M.OrderFacts(M.ItemsOf(u), M.ItemsOf(p), path[0].key);
  }
}
