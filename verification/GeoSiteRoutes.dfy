/** The entry points of the GeoSite parser, each a loop over the top-level fields. */
module GeoSiteRoutes {
  import opened Options
  import opened ProtoReader
  import opened GeoSiteMessages
  import opened GeoSiteRules
  import opened Strings
  import opened GeoSiteTable
  import opened GeoSiteDatabase
  import opened GeoSiteParser
  import Agreement = GeoSiteAgreement

  // ---------------------------------------------------------------- a prefix that fails

  lemma Front<T>(s: seq<T>, n: nat)
    requires n < |s|
    ensures s[..n + 1][..|s[..n + 1]| - 1] == s[..n] && s[..n + 1][|s[..n + 1]| - 1] == s[n]
  {
  }

  lemma {:induction false} AddTagsFails(text: Text, tags: Table, attributes: seq<string>, rules: seq<Domain>, n: nat)
    requires n <= |attributes| && AddTags(text, tags, attributes[..n], rules).None?
    ensures AddTags(text, tags, attributes, rules).None?
    decreases |attributes| - n
  {
    if n == |attributes| {
      assert attributes[..n] == attributes;
    } else {
      Front(attributes, n);
      AddTagsFails(text, tags, attributes, rules, n + 1);
    }
  }

  lemma {:induction false} SiteRulesFail(text: Text, domains: seq<ParsedDomain>, n: nat)
    requires n <= |domains| && SiteRules(text, domains[..n]).None?
    ensures SiteRules(text, domains).None?
    decreases |domains| - n
  {
    if n == |domains| {
      assert domains[..n] == domains;
    } else {
      Front(domains, n);
      SiteRulesFail(text, domains, n + 1);
    }
  }

  lemma {:induction false} AssembleFails(text: Text, fs: seq<Field>, more: seq<Field>, requested: Option<set<Code>>)
    requires Assemble(text, fs, requested).None?
    ensures Assemble(text, fs + more, requested).None?
    decreases |more|
  {
    if more == [] {
      assert fs + more == fs;
    } else {
      assert (fs + more)[..|fs + more| - 1] == fs + more[..|more| - 1];
      AssembleFails(text, fs, more[..|more| - 1], requested);
    }
  }

  lemma {:induction false} AllCodesFail(text: Text, fs: seq<Field>, more: seq<Field>)
    requires AllCodes(text, fs).None?
    ensures AllCodes(text, fs + more).None?
    decreases |more|
  {
    if more == [] {
      assert fs + more == fs;
    } else {
      assert (fs + more)[..|fs + more| - 1] == fs + more[..|more| - 1];
      AllCodesFail(text, fs, more[..|more| - 1]);
    }
  }

  // ---------------------------------------------------------------- one site

  method TagRules(text: Text, tags: Categories, attributes: seq<string>, rules: seq<Domain>) returns (ok: bool)
    modifies tags
    ensures match AddTags(text, old(tags.entries), attributes, rules)
            case None => !ok
            case Some(t) => ok && tags.entries == t
  {
    for n := 0 to |attributes|
      invariant AddTags(text, old(tags.entries), attributes[..n], rules) == Some(tags.entries)
    {
      Front(attributes, n);
      var tag := Normalize(text, attributes[n]);
      if tag.None? {
        AddTagsFails(text, old(tags.entries), attributes, rules, n + 1);
        return false;
      }
      tags.Set(tag.value, OrEmpty(Find(tags.entries, tag.value)) + rules);
    }
    assert attributes[..|attributes|] == attributes;
    ok := true;
  }

  method CollectRules(text: Text, domains: seq<ParsedDomain>) returns (r: Option<(seq<Domain>, Table)>)
    ensures r == SiteRules(text, domains)
  {
    var all := [];
    var tags := new Categories();
    for n := 0 to |domains|
      invariant fresh(tags) && SiteRules(text, domains[..n]) == Some((all, tags.entries))
    {
      Front(domains, n);
      var rules := Convert(text, domains[n]);
      if rules.None? {
        SiteRulesFail(text, domains, n + 1);
        return None;
      }
      all := all + rules.value;
      var ok := TagRules(text, tags, domains[n].attributes, rules.value);
      if !ok {
        SiteRulesFail(text, domains, n + 1);
        return None;
      }
    }
    assert domains[..|domains|] == domains;
    r := Some((all, tags.entries));
  }

  method StoreSite(text: Text, sites: Categories, code: Code, site: ParsedSite) returns (ok: bool)
    modifies sites
    ensures match AddSite(text, old(sites.entries), code, site)
            case None => !ok && sites.entries == old(sites.entries)
            case Some(t) => ok && sites.entries == t
  {
    var rules := CollectRules(text, site.domains);
    if rules.None? { return false; }
    var all := KeepFirst(rules.value.0);
    sites.Set(code, all);
    ghost var start := sites.entries;
    var tags := rules.value.1;
    for n := 0 to |tags|
      invariant sites.entries == PutTags(start, code, tags[..n])
    {
      Front(tags, n);
      var tagged := KeepFirst(tags[n].domains);
      sites.Set(code + "@" + tags[n].code, tagged);
    }
    assert tags[..|tags|] == tags;
    ok := true;
  }

  // ---------------------------------------------------------------- the parse

  method StoreField(text: Text, sites: Categories, payload: seq<Byte>, requested: Option<set<Code>>)
    returns (ok: bool)
    modifies sites
    ensures match AddField(text, old(sites.entries), Block(1, payload), requested)
            case None => !ok
            case Some(t) => ok && sites.entries == t
  {
    var raw := ParseSiteCode(text, payload);
    if raw.None? { return false; }
    if raw.value == "" { return true; }
    var code := Normalize(text, raw.value);
    if code.None? { return false; }
    if requested.Some? && !Relevant(code.value, requested.value) { return true; }
    var site := ParseSite(text, payload);
    if site.None? { return false; }
    ok := StoreSite(text, sites, code.value, site.value);
  }

  lemma ParseFails(text: Text, b: seq<Byte>, seen: seq<Field>, offset: nat, requested: Option<set<Code>>)
    requires offset <= |b| && Fields(b) == Then(seen, FieldsFrom(b, offset)) && Assemble(text, seen, requested).None?
    ensures ParseDatabase(text, b, requested).None?
  {
    if FieldsFrom(b, offset).Some? { AssembleFails(text, seen, FieldsFrom(b, offset).value, requested); }
  }

  predicate Assembled(text: Text, seen: seq<Field>, requested: Option<set<Code>>, t: Table) {
    Assemble(text, seen, requested) == Some(t)
  }

  lemma AssembledOn(text: Text, seen: seq<Field>, requested: Option<set<Code>>, t: Table, f: Field)
    requires Assembled(text, seen, requested, t)
    ensures match AddField(text, t, f, requested)
            case None => Assemble(text, seen + [f], requested).None?
            case Some(next) => Assembled(text, seen + [f], requested, next)
  {
    Pushed(seen, f);
  }

  method ParseGeoSite(text: Text, b: seq<Byte>, requested: Option<set<Code>>) returns (ok: bool, sites: Categories)
    ensures fresh(sites)
    ensures match ParseDatabase(text, b, requested)
            case None => !ok
            case Some(t) => ok && sites.entries == t
  {
    sites := new Categories();
    if |b| == 0 || |b| > MAX_DATABASE { return false, sites; }
    var reader := new Reader(b);
    ghost var seen := [];
    NothingSeen(b);
    while !reader.AtEnd()
      invariant reader.Valid() && fresh(reader) && fresh(sites) && reader.bytes == b
      invariant Fields(b) == Then(seen, FieldsFrom(b, reader.offset))
      invariant Assembled(text, seen, requested, sites.entries)
      decreases |b| - reader.offset
    {
      Turn(b, reader.offset, seen);
      ghost var field := FieldAt(b, reader.offset);
      var tag := reader.ReadTag();
      if tag.None? { return false, sites; }
      if tag.value == (1, 2) {
        var payload := reader.ReadBytes();
        if payload.None? { return false, sites; }
        AssembledOn(text, seen, requested, sites.entries, field.value.0);
        var stored := StoreField(text, sites, payload.value, requested);
        if !stored {
          ParseFails(text, b, seen + [field.value.0], reader.offset, requested);
          return false, sites;
        }
      } else {
        var skipped := reader.Skip(tag.value.1);
        if !skipped { return false, sites; }
        AssembledOn(text, seen, requested, sites.entries, field.value.0);
      }
      seen := seen + [field.value.0];
    }
    assert seen + [] == seen;
    ok := Finish(sites, requested, text, seen);
  }

  /** What follows the loop: tags, the Chinese categories, compaction, and the restriction. */
  method Finish(sites: Categories, requested: Option<set<Code>>, ghost text: Text, ghost fs: seq<Field>) returns (ok: bool)
    requires Assemble(text, fs, requested) == Some(sites.entries)
    modifies sites
    ensures match Finished(old(sites.entries), requested)
            case None => !ok
            case Some(t) => ok && sites.entries == t
  {
    AssembledProper(text, fs, requested);
    StaysProper(sites.entries);
    ok := sites.FilterTags();
    if !ok { return; }
    sites.MergeChinese();
    sites.CompileEvery();
    if requested.Some? {
      sites.KeepOnly(Wanted(requested.value));
    } else if sites.entries == [] {
      ok := false;
    }
  }

  lemma StaysProper(t: Table)
    requires Proper(t)
    ensures FilterTags(t).Some? && Proper(FilterTags(t).value)
    ensures Proper(MergeChinese(FilterTags(t).value)) && Proper(CompileAll(MergeChinese(FilterTags(t).value)))
  {
    FilterProper(t);
    var filtered := FilterTags(t).value;
    var m := MergedChinese(filtered);
    PutProper(filtered, GEOLOCATION_CN, m);
    PutProper(Put(filtered, GEOLOCATION_CN, m), CN, Unique(m + [Domain(Suffix, ".cn")]));
  }

  lemma FilterProper(t: Table)
    requires Proper(t)
    ensures FilterTags(t).Some? && Proper(FilterTags(t).value)
  {
    Agreement.TagsFiltered(t, "");
  }

  // ---------------------------------------------------------------- the list of codes

  method ListTags(text: Text, codes: set<Code>, code: Code, attributes: seq<string>) returns (r: Option<set<Code>>)
    ensures r == AddTagCodes(text, codes, code, attributes)
  {
    var all := codes;
    for n := 0 to |attributes|
      invariant AddTagCodes(text, codes, code, attributes[..n]) == Some(all)
    {
      Front(attributes, n);
      var tag := Normalize(text, attributes[n]);
      if tag.None? {
        AddTagCodesFails(text, codes, code, attributes, n + 1);
        return None;
      }
      all := all + {code + "@" + tag.value};
    }
    assert attributes[..|attributes|] == attributes;
    r := Some(all);
  }

  lemma {:induction false} AddTagCodesFails(text: Text, codes: set<Code>, code: Code, attributes: seq<string>, n: nat)
    requires n <= |attributes| && AddTagCodes(text, codes, code, attributes[..n]).None?
    ensures AddTagCodes(text, codes, code, attributes).None?
    decreases |attributes| - n
  {
    if n == |attributes| {
      assert attributes[..n] == attributes;
    } else {
      Front(attributes, n);
      AddTagCodesFails(text, codes, code, attributes, n + 1);
    }
  }

  lemma {:induction false} AddSiteCodesFails(text: Text, codes: set<Code>, code: Code, domains: seq<ParsedDomain>, n: nat)
    requires n <= |domains| && AddSiteCodes(text, codes, code, domains[..n]).None?
    ensures AddSiteCodes(text, codes, code, domains).None?
    decreases |domains| - n
  {
    if n == |domains| {
      assert domains[..n] == domains;
    } else {
      Front(domains, n);
      AddSiteCodesFails(text, codes, code, domains, n + 1);
    }
  }

  method ListSite(text: Text, codes: set<Code>, code: Code, domains: seq<ParsedDomain>) returns (r: Option<set<Code>>)
    ensures r == AddSiteCodes(text, codes, code, domains)
  {
    var all := codes;
    for n := 0 to |domains|
      invariant AddSiteCodes(text, codes, code, domains[..n]) == Some(all)
    {
      Front(domains, n);
      var next := ListTags(text, all, code, domains[n].attributes);
      if next.None? {
        AddSiteCodesFails(text, codes, code, domains, n + 1);
        return None;
      }
      all := next.value;
    }
    assert domains[..|domains|] == domains;
    r := Some(all);
  }

  lemma ListFails(text: Text, b: seq<Byte>, seen: seq<Field>, offset: nat)
    requires offset <= |b| && Fields(b) == Then(seen, FieldsFrom(b, offset)) && AllCodes(text, seen).None?
    ensures ListCodes(text, b).None?
  {
    if FieldsFrom(b, offset).Some? { AllCodesFail(text, seen, FieldsFrom(b, offset).value); }
  }

  predicate Listed(text: Text, seen: seq<Field>, codes: set<Code>) {
    AllCodes(text, seen) == Some(codes)
  }

  lemma ListedOn(text: Text, seen: seq<Field>, codes: set<Code>, f: Field)
    requires Listed(text, seen, codes)
    ensures match AddFieldCodes(text, codes, f)
            case None => AllCodes(text, seen + [f]).None?
            case Some(next) => Listed(text, seen + [f], next)
  {
    Pushed(seen, f);
  }

  method GeoSiteCodes(text: Text, b: seq<Byte>) returns (r: Option<set<Code>>)
    ensures r == ListCodes(text, b)
  {
    if |b| == 0 || |b| > MAX_DATABASE { return None; }
    var reader := new Reader(b);
    var codes: set<Code> := {};
    ghost var seen := [];
    NothingSeen(b);
    while !reader.AtEnd()
      invariant reader.Valid() && fresh(reader) && reader.bytes == b
      invariant Fields(b) == Then(seen, FieldsFrom(b, reader.offset))
      invariant Listed(text, seen, codes)
      decreases |b| - reader.offset
    {
      Turn(b, reader.offset, seen);
      ghost var field := FieldAt(b, reader.offset);
      var tag := reader.ReadTag();
      if tag.None? { return None; }
      if tag.value != (1, 2) {
        var skipped := reader.Skip(tag.value.1);
        if !skipped { return None; }
        ListedOn(text, seen, codes, field.value.0);
      } else {
        var payload := reader.ReadBytes();
        if payload.None? { return None; }
        ListedOn(text, seen, codes, field.value.0);
        var next := ListField(text, codes, payload.value);
        if next.None? {
          ListFails(text, b, seen + [field.value.0], reader.offset);
          return None;
        }
        codes := next.value;
      }
      seen := seen + [field.value.0];
    }
    assert seen + [] == seen;
    r := FinishList(codes);
  }

  /** What follows the loop: tags, and the category that goes with the merged one. */
  method FinishList(all: set<Code>) returns (r: Option<set<Code>>)
    ensures var filtered := FilterCodes(all); var listed := if GEOLOCATION_CN in filtered then filtered + {CN} else filtered;
      r == if listed == {} then None else Some(listed)
  {
    var codes := DropTags(all);
    if GEOLOCATION_CN in codes { codes := codes + {CN}; }
    r := if codes == {} then None else Some(codes);
  }

  method ListField(text: Text, codes: set<Code>, payload: seq<Byte>) returns (r: Option<set<Code>>)
    ensures r == AddFieldCodes(text, codes, Block(1, payload))
  {
    var site := ParseSite(text, payload);
    if site.None? { return None; }
    if site.value.code == "" { return Some(codes); }
    var code := Normalize(text, site.value.code);
    if code.None? { return None; }
    r := ListSite(text, codes + {code.value}, code.value, site.value.domains);
  }

  method DropTags(codes: set<Code>) returns (r: set<Code>)
    ensures r == FilterCodes(codes)
  {
    r := codes;
    var todo := codes;
    while todo != {}
      invariant todo <= codes
      invariant forall c :: c in r <==> c in codes && (c in todo || (!Repeats(c) && !Excludes(c)))
    {
      var code :| code in todo;
      todo := todo - {code};
      if Repeats(code) || Excludes(code) { r := r - {code}; }
    }
  }
}
