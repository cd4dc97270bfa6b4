/** The parser itself: loops over a moving reader that fill one map of categories and then change it
    in place, proved against what the database holds. */
module GeoSiteParser {
  import opened Options
  import opened ProtoReader
  import opened GeoSiteMessages
  import opened GeoSiteRules
  import opened Strings
  import opened GeoSiteTable
  import opened GeoSiteDatabase

  // ---------------------------------------------------------------- positions in the map

  lemma {:induction false} RemoveAt(a: Table, e: Entry, b: Table)
    requires forall i | 0 <= i < |a| :: a[i].code != e.code
    ensures Remove(a + [e] + b, e.code) == a + b
  {
    var t := a + [e] + b;
    if a == [] {
      assert t[1..] == b && a + b == b;
    } else {
      assert t[0] == a[0];
      assert t[1..] == a[1..] + [e] + b;
      RemoveAt(a[1..], e, b);
      assert [a[0]] + (a[1..] + b) == a + b;
    }
  }

  lemma {:induction false} PutAt(a: Table, e: Entry, b: Table, domains: seq<Domain>)
    requires forall i | 0 <= i < |a| :: a[i].code != e.code
    ensures Put(a + [e] + b, e.code, domains) == a + [Entry(e.code, domains)] + b
  {
    var t := a + [e] + b;
    if a == [] {
      assert t[0] == e && t[1..] == b;
    } else {
      assert t[1..] == a[1..] + [e] + b;
      PutAt(a[1..], e, b, domains);
      assert [a[0]] + (a[1..] + [Entry(e.code, domains)] + b) == a + [Entry(e.code, domains)] + b;
    }
  }

  lemma {:induction false} FindAt(t: Table, n: nat)
    requires Proper(t) && n < |t|
    ensures Find(t, t[n].code) == Some(t[n].domains)
  {
    if n > 0 {
      assert t[0].code != t[n].code;
      FindAt(t[1..], n - 1);
    }
  }

  lemma {:induction false} KeepPush(t: Table, e: Entry, wanted: Code -> bool)
    ensures Keep(t + [e], wanted) == Keep(t, wanted) + (if wanted(e.code) then [e] else [])
  {
    if t != [] {
      assert (t + [e])[1..] == t[1..] + [e];
      KeepPush(t[1..], e, wanted);
    }
  }

  lemma {:induction false} ExclusionsPush(t: Table, e: Entry)
    ensures Exclusions(t + [e]) == Exclusions(t) + (if Excludes(e.code) then [e.code] else [])
  {
    if t == [] {
      assert (t + [e])[1..] == [];
    } else {
      assert (t + [e])[1..] == t[1..] + [e];
      ExclusionsPush(t[1..], e);
    }
  }

  lemma {:induction false} GatheredPush(t: Table, e: Entry)
    ensures Gathered(t + [e]) == Gathered(t) + (if Chinese(e.code) then e.domains else [])
  {
    if t == [] {
      assert (t + [e])[1..] == [];
    } else {
      assert (t + [e])[1..] == t[1..] + [e];
      GatheredPush(t[1..], e);
      var first, last := if Chinese(t[0].code) then t[0].domains else [], if Chinese(e.code) then e.domains else [];
      assert (first + Gathered(t[1..])) + last == first + (Gathered(t[1..]) + last);
    }
  }

  lemma KeptCodes(t: Table, wanted: Code -> bool, n: nat)
    requires Proper(t) && n < |t|
    ensures forall i | 0 <= i < |Keep(t[..n], wanted)| :: Keep(t[..n], wanted)[i].code != t[n].code
  {
    var kept := Keep(t[..n], wanted);
    forall i | 0 <= i < |kept| ensures kept[i].code != t[n].code {
      assert Codes(kept)[i] == kept[i].code;
      KeepIn(t[..n], wanted, kept[i].code);
      var k :| 0 <= k < |t[..n]| && Codes(t[..n])[k] == kept[i].code;
      assert t[k].code == kept[i].code;
    }
  }

  lemma Cut(t: Table, n: nat)
    requires n < |t|
    ensures t[n..] == [t[n]] + t[n + 1..] && t[..n + 1] == t[..n] + [t[n]]
  {
  }

  /** One turn of a loop that deletes what is not wanted. */
  lemma KeepTurn(t: Table, wanted: Code -> bool, n: nat)
    requires Proper(t) && n < |t|
    ensures var before, after := Keep(t[..n], wanted) + t[n..], Keep(t[..n + 1], wanted) + t[n + 1..];
      after == if wanted(t[n].code) then before else Remove(before, t[n].code)
  {
    var kept := Keep(t[..n], wanted);
    Cut(t, n);
    KeepPush(t[..n], t[n], wanted);
    if wanted(t[n].code) {
      assert (kept + [t[n]]) + t[n + 1..] == kept + ([t[n]] + t[n + 1..]);
    } else {
      KeptCodes(t, wanted, n);
      RemoveAt(kept, t[n], t[n + 1..]);
      assert kept + [t[n]] + t[n + 1..] == kept + ([t[n]] + t[n + 1..]);
    }
  }

  lemma Ends(t: Table)
    ensures t[..0] + t[0..] == t && t[..|t|] == t && t[|t|..] == [] && t[..0] == []
  {
  }

  /** One turn of a loop that compacts every category. */
  lemma CompileTurn(t: Table, n: nat)
    requires Proper(t) && n < |t|
    ensures var before, after := CompileAll(t)[..n] + t[n..], CompileAll(t)[..n + 1] + t[n + 1..];
      before[n] == t[n] && after == Put(before, t[n].code, Compile(t[n].domains))
  {
    var done := CompileAll(t)[..n];
    Cut(t, n);
    assert forall i | 0 <= i < n :: done[i].code == t[i].code;
    PutAt(done, t[n], t[n + 1..], Compile(t[n].domains));
    assert done + [t[n]] + t[n + 1..] == done + t[n..];
    assert CompileAll(t)[..n + 1] == done + [Entry(t[n].code, Compile(t[n].domains))];
  }

  // ---------------------------------------------------------------- the map

  class Categories {
    var entries: Table

    constructor ()
      ensures entries == []
    {
      entries := [];
    }

    method Set(code: Code, domains: seq<Domain>)
      modifies this
      ensures entries == Put(old(entries), code, domains)
    {
      entries := Put(entries, code, domains);
    }

    method Delete(code: Code)
      modifies this
      ensures entries == Remove(old(entries), code)
    {
      entries := Remove(entries, code);
    }

    /** Deletes the categories that are not wanted, one by one. */
    method KeepOnly(wanted: Code -> bool)
      requires Proper(entries)
      modifies this
      ensures entries == Keep(old(entries), wanted)
    {
      ghost var t := entries;
      var keys := Codes(entries);
      Ends(t);
      for n := 0 to |keys|
        invariant entries == Keep(t[..n], wanted) + t[n..]
      {
        KeepTurn(t, wanted, n);
        if !wanted(keys[n]) {
          Delete(keys[n]);
        }
      }
    }

    method FilterTags() returns (ok: bool)
      requires Proper(entries)
      modifies this
      ensures match GeoSiteTable.FilterTags(old(entries))
              case None => !ok
              case Some(t) => ok && entries == t
    {
      ghost var t := entries;
      var keys := Codes(entries);
      var inverse := [];
      Ends(t);
      for n := 0 to |keys|
        invariant entries == Keep(t[..n], NotRepeating()) + t[n..]
        invariant inverse == Exclusions(t[..n])
      {
        KeepTurn(t, NotRepeating(), n);
        Cut(t, n);
        ExclusionsPush(t[..n], t[n]);
        if Repeats(keys[n]) {
          Delete(keys[n]);
        } else if Excludes(keys[n]) {
          inverse := inverse + [keys[n]];
        }
      }
      assert inverse == Exclusions(t) && entries == Keep(t, NotRepeating());
      ok := RemoveExclusions(inverse);
    }

    method RemoveExclusions(inverse: seq<Code>) returns (ok: bool)
      modifies this
      ensures match ExcludeAll(old(entries), inverse)
              case None => !ok
              case Some(t) => ok && entries == t
    {
      for n := 0 to |inverse|
        invariant ExcludeAll(old(entries), inverse) == ExcludeAll(entries, inverse[n..])
      {
        assert inverse[n..][0] == inverse[n] && inverse[n..][1..] == inverse[n + 1..];
        var excluded := Find(entries, inverse[n]);
        if excluded.None? { return false; }
        var base := Base(inverse[n]);
        var blocked := set d | d in excluded.value;
        var left := DropBlocked(OrEmpty(Find(entries, base)), blocked);
        Set(base, left);
        Delete(inverse[n]);
      }
      ok := true;
    }

    method MergeChinese()
      requires Proper(entries)
      modifies this
      ensures entries == GeoSiteTable.MergeChinese(old(entries))
    {
      var found := GatherChinese(entries);
      var merged := KeepFirst(OrEmpty(Find(entries, GEOLOCATION_CN)) + found);
      if merged == [] { return; }
      Set(GEOLOCATION_CN, merged);
      var withSuffix := KeepFirst(merged + [Domain(Suffix, ".cn")]);
      Set(CN, withSuffix);
    }

    method CompileEvery()
      requires Proper(entries)
      modifies this
      ensures entries == CompileAll(old(entries))
    {
      ghost var t := entries;
      var keys := Codes(entries);
      for n := 0 to |keys|
        invariant entries == CompileAll(t)[..n] + t[n..]
      {
        CompileTurn(t, n);
        var rules := CompileRules(entries[n].domains);
        Set(keys[n], rules);
      }
    }
  }

  method GatherChinese(t: Table) returns (found: seq<Domain>)
    requires GeoSiteTable.Proper(t)
    ensures found == Gathered(t)
  {
    var keys := Codes(t);
    found := [];
    for n := 0 to |keys|
      invariant found == Gathered(t[..n])
    {
      Cut(t, n);
      GatheredPush(t[..n], t[n]);
      if Chinese(keys[n]) {
        FindAt(t, n);
        found := found + OrEmpty(Find(t, keys[n]));
      }
    }
    assert t[..|t|] == t;
  }

  method DropBlocked(domains: seq<Domain>, blocked: set<Domain>) returns (r: seq<Domain>)
    ensures r == Without(domains, blocked)
  {
    r := [];
    for n := 0 to |domains|
      invariant r == Without(domains[..n], blocked)
    {
      assert domains[..n + 1][..n] == domains[..n];
      if domains[n] !in blocked { r := r + [domains[n]]; }
    }
    assert domains[..|domains|] == domains;
  }
}
