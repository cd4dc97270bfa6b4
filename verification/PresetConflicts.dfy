/** Where the merge reports a conflict, told by walking one path through the three trees, and what
    the merge leaves at every path. */
module PresetConflicts {
  import opened Options
  import opened PresetTree
  import opened PresetMerge

  /** One step down a tree: into an object field, or into the identified item of an array. */
  datatype Step = Field(name: string) | Item(key: string, id: string)
  type Path = seq<Step>

  datatype Reason = BothChanged | SameArrayKeyAdded

  datatype Clash = Clash(reason: Reason, base: Maybe, user: Maybe, preset: Maybe)

  /** The conflict reported at `path`, if any. */
  function ClashAt(b: Maybe, u: Maybe, p: Maybe, path: Path): Option<Clash>
    decreases |path|
  {
    if ObjectNode(b, u, p) then
      if path == [] || !path[0].Field? then None
      else ClashAt(At1(b, path[0]), At1(u, path[0]), At1(p, path[0]), path[1..])
    else if ArrayNode(b, u, p) then
      if path == [] || !path[0].Item? || ArrayKey([ItemsOf(b), ItemsOf(u), ItemsOf(p)]) != Some(path[0].key) then None
      else
        var bv, uv, pv := At1(b, path[0]), At1(u, path[0]), At1(p, path[0]);
        if AddedTwice(bv, uv, pv) then
          if path == [path[0]] then Some(Clash(SameArrayKeyAdded, bv, uv, pv)) else None
        else ClashAt(bv, uv, pv, path[1..])
    else if Diverged(b, u, p) && b.Present? && path == [] then
      Some(Clash(BothChanged, b, u, p))
    else None
  }

  /** What a tree holds one step down. */
  function At1(v: Maybe, step: Step): Maybe {
    match step
    case Field(name) => PresetMerge.Field(v, name)
    case Item(key, id) => Lookup(ItemsOf(v), key, id)
  }

  function At(v: Maybe, path: Path): Maybe
    decreases |path|
  {
    if path == [] then v else At(At1(v, path[0]), path[1..])
  }

  /** The merge can be followed down `path`: at every step the three trees are objects, or arrays
      identified by the field the step names, and the base may be absent. */
  predicate Walkable(b: Maybe, u: Maybe, p: Maybe, path: Path)
    decreases |path|
  {
    path == [] ||
    (&& u.Present? && p.Present?
     && match path[0]
        case Field(_) =>
          && u.value.Obj? && p.value.Obj? && (b.Present? ==> b.value.Obj?)
          && Walkable(At1(b, path[0]), At1(u, path[0]), At1(p, path[0]), path[1..])
        case Item(key, _) =>
          && u.value.Arr? && p.value.Arr? && (b.Present? ==> b.value.Arr?)
          && ArrayKey([ItemsOf(b), ItemsOf(u), ItemsOf(p)]) == Some(key)
          && !AddedTwice(At1(b, path[0]), At1(u, path[0]), At1(p, path[0]))
          && Walkable(At1(b, path[0]), At1(u, path[0]), At1(p, path[0]), path[1..]))
  }

  /** The merge commutes with looking below a path: what it leaves there is the merge of what the
      three trees hold there, even where an ancestor was taken whole from one side. */
  lemma {:induction false} MergeBelow(b: Maybe, u: Maybe, p: Maybe, path: Path)
    requires Walkable(b, u, p, path)
    ensures At(Merge(b, u, p), path) == Merge(At(b, path), At(u, path), At(p, path))
    decreases |path|
  {
    if path != [] {
      var s := path[0];
      assert At1(Merge(b, u, p), s) == Merge(At1(b, s), At1(u, s), At1(p, s)) by { MergeStep(b, u, p, s); }
      MergeBelow(At1(b, s), At1(u, s), At1(p, s), path[1..]);
    }
  }

  lemma MergeStep(b: Maybe, u: Maybe, p: Maybe, s: Step)
    requires Walkable(b, u, p, [s])
    ensures At1(Merge(b, u, p), s) == Merge(At1(b, s), At1(u, s), At1(p, s))
  {
    if ObjectNode(b, u, p) {
      MergedField(b, u, p, s.name);
    } else if ArrayNode(b, u, p) {
      MergedArray(ItemsOf(b), ItemsOf(u), ItemsOf(p), s.key);
    }
  }

  /** The three values cannot be merged further: all differ, and they are not three objects or
      three arrays (an absent base counts as empty). */
  predicate Unmergeable(b: Maybe, u: Maybe, p: Maybe) {
    Diverged(b, u, p) && !ObjectNode(b, u, p) && !ArrayNode(b, u, p)
  }

  /** What the merge leaves at a path and what it reports there: the preset's subtree where the user
      kept the base, the user's where the preset did, and where the three cannot be merged the
      user's value with one conflict, or none when the base had nothing there. */
  lemma PathExact(b: Maybe, u: Maybe, p: Maybe, path: Path)
    requires Walkable(b, u, p, path)
    ensures At(u, path) == At(b, path) ==> At(Merge(b, u, p), path) == At(p, path)
    ensures At(p, path) == At(b, path) ==> At(Merge(b, u, p), path) == At(u, path)
    ensures Unmergeable(At(b, path), At(u, path), At(p, path)) ==>
              && At(Merge(b, u, p), path) == At(u, path)
              && ClashAt(b, u, p, path) ==
                 if At(b, path).Missing? then None
                 else Some(Clash(BothChanged, At(b, path), At(u, path), At(p, path)))
    ensures !Unmergeable(At(b, path), At(u, path), At(p, path)) ==> ClashAt(b, u, p, path).None?
  {
    MergeBelow(b, u, p, path);
    ClashBelow(b, u, p, path);
  }

  lemma {:induction false} ClashBelow(b: Maybe, u: Maybe, p: Maybe, path: Path)
    requires Walkable(b, u, p, path)
    ensures ClashAt(b, u, p, path) ==
            if Unmergeable(At(b, path), At(u, path), At(p, path)) && At(b, path).Present?
            then Some(Clash(BothChanged, At(b, path), At(u, path), At(p, path))) else None
    decreases |path|
  {
    if path != [] {
      var s := path[0];
      ClashBelow(At1(b, s), At1(u, s), At1(p, s), path[1..]);
      if !Diverged(b, u, p) {
        SameBelow(b, u, p, path);
      }
    }
  }

  /** Trees that agree at the top agree below. */
  lemma SameBelow(b: Maybe, u: Maybe, p: Maybe, path: Path)
    requires !Diverged(b, u, p)
    ensures !Diverged(At(b, path), At(u, path), At(p, path))
  {
  }

  /** Every reported conflict lies at a path the merge was followed to, or is an id both sides added
      under such a path. */
  lemma {:induction false} ClashReached(b: Maybe, u: Maybe, p: Maybe, path: Path)
    requires ClashAt(b, u, p, path).Some?
    ensures var c := ClashAt(b, u, p, path).value;
      && c.base == At(b, path) && c.user == At(u, path) && c.preset == At(p, path)
      && (c.reason.BothChanged? ==> Walkable(b, u, p, path))
      && (c.reason.SameArrayKeyAdded? ==>
            && path != [] && Walkable(b, u, p, path[..|path| - 1])
            && AddedTwice(c.base, c.user, c.preset))
    decreases |path|
  {
    if path != [] {
      var s := path[0];
      if !(s.Item? && AddedTwice(At1(b, s), At1(u, s), At1(p, s))) {
        ClashReached(At1(b, s), At1(u, s), At1(p, s), path[1..]);
        if |path| > 1 {
          assert path[..|path| - 1][1..] == path[1..][..|path| - 2];
        }
      }
    }
  }

  /** A reported conflict is never resolved: the result still holds the user's value there. */
  lemma {:induction false} ClashKeepsUser(b: Maybe, u: Maybe, p: Maybe, path: Path)
    requires ClashAt(b, u, p, path).Some?
    ensures At(Merge(b, u, p), path) == At(u, path)
    ensures Diverged(At(b, path), At(u, path), At(p, path))
    decreases |path|
  {
    if path != [] {
      var s := path[0];
      if s.Item? {
        MergedArray(ItemsOf(b), ItemsOf(u), ItemsOf(p), s.key);
      } else {
        MergedField(b, u, p, s.name);
      }
      if !(s.Item? && AddedTwice(At1(b, s), At1(u, s), At1(p, s))) {
        ClashKeepsUser(At1(b, s), At1(u, s), At1(p, s), path[1..]);
      }
    }
  }
}
