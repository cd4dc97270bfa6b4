/** Template trees: what a parsed JSON or YAML engine template is, and how an array of records
    picks the field that identifies its items. */
module PresetTree {

  import opened Options

  /** A parsed template. Two values are `equal` for the program when their key-sorted text is the
      same, which for these trees is structural equality: object keys carry no order. */
  datatype Value =
    | Null
    | Bool(b: bool)
    | Num(n: int)
    | Str(s: string)
    | Arr(items: seq<Value>)
    | Obj(fields: map<string, Value>)

  /** A value, or the sentinel the program calls `missing`. */
  datatype Maybe = Missing | Present(value: Value)

  function ValueOf(m: Maybe): Value {
    if m.Present? then m.value else Null
  }

  function Get(fields: map<string, Value>, key: string): Maybe {
    if key in fields then Present(fields[key]) else Missing
  }

  /** The item has a string under `key`. */
  predicate Tagged(v: Value, key: string) {
    v.Obj? && key in v.fields && v.fields[key].Str?
  }

  /** The item's string under `key`. */
  function IdOf(v: Value, key: string): string {
    if Tagged(v, key) then v.fields[key].s else ""
  }

  predicate HasId(v: Value, key: string, id: string) {
    Tagged(v, key) && IdOf(v, key) == id
  }

  /** Every item has a string under `key`, and no two items share it. */
  predicate KeyedBy(items: seq<Value>, key: string) {
    && (forall i | 0 <= i < |items| :: Tagged(items[i], key))
    && (forall i, j | 0 <= i < j < |items| :: IdOf(items[i], key) != IdOf(items[j], key))
  }

  predicate AllKeyedBy(groups: seq<seq<Value>>, key: string) {
    forall g | g in groups :: KeyedBy(g, key)
  }

  predicate AllObjects(groups: seq<seq<Value>>) {
    forall g, v | g in groups && v in g :: v.Obj?
  }

  /** The first of `tag`, `name`, `id` that identifies the items of every group. */
  function ArrayKey(groups: seq<seq<Value>>): Option<string> {
    if (forall g | g in groups :: g == []) || !AllObjects(groups) then None
    else if AllKeyedBy(groups, "tag") then Some("tag")
    else if AllKeyedBy(groups, "name") then Some("name")
    else if AllKeyedBy(groups, "id") then Some("id")
    else None
  }

  function Ids(items: seq<Value>, key: string): (ids: seq<string>)
    ensures |ids| == |items|
    ensures forall i | 0 <= i < |ids| :: ids[i] == IdOf(items[i], key)
  {
    seq(|items|, i requires 0 <= i < |items| => IdOf(items[i], key))
  }

  /** The item the program's `Map` from id to item holds. */
  function Lookup(items: seq<Value>, key: string, id: string): (m: Maybe)
    ensures m.Present? ==> m.value in items && HasId(m.value, key, id)
  {
    if items == [] then Missing
    else if HasId(items[0], key, id) then Present(items[0])
    else Lookup(items[1..], key, id)
  }

  predicate Distinct(ids: seq<string>) {
    forall i, j | 0 <= i < j < |ids| :: ids[i] != ids[j]
  }

  lemma {:induction false} LookupAt(items: seq<Value>, key: string, i: nat)
    requires KeyedBy(items, key) && i < |items|
    ensures Lookup(items, key, IdOf(items[i], key)) == Present(items[i])
  {
    if i != 0 {
      assert IdOf(items[0], key) != IdOf(items[i], key);
      LookupAt(items[1..], key, i - 1);
    }
  }

  lemma {:induction false} LookupMissing(items: seq<Value>, key: string, id: string)
    requires forall v | v in items :: !HasId(v, key, id)
    ensures Lookup(items, key, id).Missing?
  {
    if items != [] {
      LookupMissing(items[1..], key, id);
    }
  }

  /** For an identified array, an id is found exactly when it is one of the ids. */
  lemma LookupIds(items: seq<Value>, key: string, id: string)
    requires KeyedBy(items, key)
    ensures Lookup(items, key, id).Present? <==> id in Ids(items, key)
    ensures Distinct(Ids(items, key))
  {
    var ids := Ids(items, key);
    if id in ids {
      var i :| 0 <= i < |ids| && ids[i] == id;
      LookupAt(items, key, i);
    } else {
      forall v | v in items ensures !HasId(v, key, id) {
        var i :| 0 <= i < |items| && items[i] == v;
        assert ids[i] in ids;
      }
      LookupMissing(items, key, id);
    }
  }

  lemma ConsLookup(v: Value, rest: seq<Value>, key: string, id: string)
    ensures Lookup([v] + rest, key, id) == if HasId(v, key, id) then Present(v) else Lookup(rest, key, id)
  {
    assert ([v] + rest)[1..] == rest;
  }

  lemma ConsIds(v: Value, rest: seq<Value>, key: string)
    ensures Ids([v] + rest, key) == [IdOf(v, key)] + Ids(rest, key)
  {
  }

  lemma ConsKeyed(v: Value, rest: seq<Value>, key: string)
    requires Tagged(v, key) && KeyedBy(rest, key) && IdOf(v, key) !in Ids(rest, key)
    ensures KeyedBy([v] + rest, key)
  {
    forall j | 0 <= j < |rest| ensures IdOf(v, key) != IdOf(rest[j], key) {
      assert Ids(rest, key)[j] in Ids(rest, key);
    }
  }

  /** Identified arrays are equal when they list the same ids and hold the same item under each. */
  lemma SameLookupsSameItems(a: seq<Value>, b: seq<Value>, key: string)
    requires KeyedBy(a, key) && KeyedBy(b, key)
    requires Ids(a, key) == Ids(b, key)
    requires forall id | id in Ids(a, key) :: Lookup(a, key, id) == Lookup(b, key, id)
    ensures a == b
  {
    forall i | 0 <= i < |a| ensures a[i] == b[i] {
      LookupAt(a, key, i);
      LookupAt(b, key, i);
      assert Ids(a, key)[i] == Ids(b, key)[i];
      assert Ids(a, key)[i] in Ids(a, key);
    }
  }

  lemma ArrayKeySound(groups: seq<seq<Value>>)
    requires ArrayKey(groups).Some?
    ensures AllKeyedBy(groups, ArrayKey(groups).value)
    ensures ArrayKey(groups).value in {"tag", "name", "id"}
    ensures exists g | g in groups :: g != []
  {
  }

  predicate Keyed3(b: seq<Value>, u: seq<Value>, p: seq<Value>, key: string) {
    KeyedBy(b, key) && KeyedBy(u, key) && KeyedBy(p, key)
  }

  lemma AllKeyed3(b: seq<Value>, u: seq<Value>, p: seq<Value>, key: string)
    ensures AllKeyedBy([b, u, p], key) <==> Keyed3(b, u, p, key)
    ensures AllKeyedBy([b, u, p], key) ==> AllObjects([b, u, p])
  {
    assert b in [b, u, p] && u in [b, u, p] && p in [b, u, p];
  }

  lemma ArrayKey3(b: seq<Value>, u: seq<Value>, p: seq<Value>)
    ensures ArrayKey([b, u, p]) ==
            if b == u == p == [] then None
            else if Keyed3(b, u, p, "tag") then Some("tag")
            else if Keyed3(b, u, p, "name") then Some("name")
            else if Keyed3(b, u, p, "id") then Some("id")
            else None
  {
    AllKeyed3(b, u, p, "tag");
    AllKeyed3(b, u, p, "name");
    AllKeyed3(b, u, p, "id");
    assert (forall g | g in [b, u, p] :: g == []) <==> b == u == p == [] by {
      assert b in [b, u, p] && u in [b, u, p] && p in [b, u, p];
    }
  }
}
