/** The three routes through a GeoSite database, the full parse, the parse of requested categories
    and the list of codes, and how they agree. */
module GeoSiteDatabase {
  import opened Options
  import opened ProtoReader
  import opened GeoSiteMessages
  import opened GeoSiteRules
  import opened Strings
  import opened GeoSiteTable

  const MAX_DATABASE := 64 * 1024 * 1024

  predicate RightSize(b: seq<Byte>) {
    0 < |b| <= MAX_DATABASE
  }

  predicate CodeChar(c: char) {
    'a' <= c <= 'z' || '0' <= c <= '9' || c in "_@.!+-"
  }

  function Normalize(text: Text, raw: string): Option<Code> {
    var code := text.canonical(raw);
    if 1 <= |code| <= 80 && forall c | c in code :: CodeChar(c) then Some(code) else None
  }

  // ---------------------------------------------------------------- one site

  /** The rules of a domain, added under each of its attributes. */
  function AddTags(text: Text, tags: Table, attributes: seq<string>, rules: seq<Domain>): Option<Table> {
    if attributes == [] then Some(tags)
    else
      var before := AddTags(text, tags, attributes[..|attributes| - 1], rules);
      var tag := Normalize(text, attributes[|attributes| - 1]);
      if before.None? || tag.None? then None
      else Some(Put(before.value, tag.value, OrEmpty(Find(before.value, tag.value)) + rules))
  }

  /** All the rules of a site, and the rules under each attribute. */
  function SiteRules(text: Text, domains: seq<ParsedDomain>): Option<(seq<Domain>, Table)> {
    if domains == [] then Some(([], []))
    else
      var before, last := SiteRules(text, domains[..|domains| - 1]), domains[|domains| - 1];
      var rules := Convert(text, last);
      if before.None? || rules.None? then None
      else
        var tags := AddTags(text, before.value.1, last.attributes, rules.value);
        if tags.None? then None else Some((before.value.0 + rules.value, tags.value))
  }

  function PutTags(t: Table, code: Code, tags: Table): Table {
    if tags == [] then t
    else
      var last := tags[|tags| - 1];
      Put(PutTags(t, code, tags[..|tags| - 1]), code + "@" + last.code, Unique(last.domains))
  }

  function AddSite(text: Text, t: Table, code: Code, site: ParsedSite): Option<Table> {
    var rules := SiteRules(text, site.domains);
    if rules.None? then None
    else Some(PutTags(Put(t, code, Unique(rules.value.0)), code, rules.value.1))
  }

  // ---------------------------------------------------------------- the parse

  predicate Relevant(code: Code, requested: set<Code>) {
    || code in requested
    || (exists item :: item in requested && StartsWith(item, code + "@"))
    || ((CN in requested || GEOLOCATION_CN in requested) && (code == GEOLOCATION_CN || StartsWith(code, CATEGORY)))
  }

  /** What a top-level field adds to the table. */
  function AddField(text: Text, t: Table, f: Field, requested: Option<set<Code>>): Option<Table> {
    if !IsBlock(f, 1) then Some(t)
    else
      var raw := SiteCodeIn(text, f.payload);
      if raw.None? then None
      else if raw.value == "" then Some(t)
      else
        var code := Normalize(text, raw.value);
        if code.None? then None
        else if requested.Some? && !Relevant(code.value, requested.value) then Some(t)
        else
          var site := SiteIn(text, f.payload);
          if site.None? then None else AddSite(text, t, code.value, site.value)
  }

  function Assemble(text: Text, fs: seq<Field>, requested: Option<set<Code>>): Option<Table> {
    if fs == [] then Some([])
    else
      var before := Assemble(text, fs[..|fs| - 1], requested);
      if before.None? then None else AddField(text, before.value, fs[|fs| - 1], requested)
  }

  function Finished(t: Table, requested: Option<set<Code>>): Option<Table> {
    var filtered := FilterTags(t);
    if filtered.None? then None
    else
      var compiled := CompileAll(MergeChinese(filtered.value));
      if requested.Some? then Some(Keep(compiled, Wanted(requested.value)))
      else if compiled == [] then None
      else Some(compiled)
  }

  function Wanted(requested: set<Code>): Code -> bool {
    code => code in requested
  }

  function ParseDatabase(text: Text, b: seq<Byte>, requested: Option<set<Code>>): Option<Table> {
    var fs := Fields(b);
    if !RightSize(b) || fs.None? then None
    else
      var assembled := Assemble(text, fs.value, requested);
      if assembled.None? then None else Finished(assembled.value, requested)
  }

  // ---------------------------------------------------------------- the list of codes

  function AddTagCodes(text: Text, codes: set<Code>, code: Code, attributes: seq<string>): Option<set<Code>> {
    if attributes == [] then Some(codes)
    else
      var before := AddTagCodes(text, codes, code, attributes[..|attributes| - 1]);
      var tag := Normalize(text, attributes[|attributes| - 1]);
      if before.None? || tag.None? then None else Some(before.value + {code + "@" + tag.value})
  }

  function AddSiteCodes(text: Text, codes: set<Code>, code: Code, domains: seq<ParsedDomain>): Option<set<Code>> {
    if domains == [] then Some(codes)
    else
      var before := AddSiteCodes(text, codes, code, domains[..|domains| - 1]);
      if before.None? then None else AddTagCodes(text, before.value, code, domains[|domains| - 1].attributes)
  }

  function AddFieldCodes(text: Text, codes: set<Code>, f: Field): Option<set<Code>> {
    if !IsBlock(f, 1) then Some(codes)
    else
      var site := SiteIn(text, f.payload);
      if site.None? then None
      else if site.value.code == "" then Some(codes)
      else
        var code := Normalize(text, site.value.code);
        if code.None? then None else AddSiteCodes(text, codes + {code.value}, code.value, site.value.domains)
  }

  function AllCodes(text: Text, fs: seq<Field>): Option<set<Code>> {
    if fs == [] then Some({})
    else
      var before := AllCodes(text, fs[..|fs| - 1]);
      if before.None? then None else AddFieldCodes(text, before.value, fs[|fs| - 1])
  }

  function FilterCodes(codes: set<Code>): set<Code> {
    set code | code in codes && !Repeats(code) && !Excludes(code)
  }

  function ListCodes(text: Text, b: seq<Byte>): Option<set<Code>> {
    var fs := Fields(b);
    if !RightSize(b) || fs.None? then None
    else
      var codes := AllCodes(text, fs.value);
      if codes.None? then None
      else
        var filtered := FilterCodes(codes.value);
        var all := if GEOLOCATION_CN in filtered then filtered + {CN} else filtered;
        if all == {} then None else Some(all)
  }

  // ---------------------------------------------------------------- codes of the table

  /** No site has a code with the mark that separates attributes. */
  ghost predicate PlainCodes(text: Text, fs: seq<Field>) {
    forall i | 0 <= i < |fs| && IsBlock(fs[i], 1) ::
      var raw := SiteCodeIn(text, fs[i].payload);
      raw.Some? && raw.value != "" && Normalize(text, raw.value).Some? ==> '@' !in Normalize(text, raw.value).value
  }

  lemma {:induction false} BeforeJoined(code: Code, tag: Code)
    requires '@' !in code
    ensures Before(code + "@" + tag, '@') == code && Before(code, '@') == code
  {
    if code != "" {
      assert (code + "@" + tag)[1..] == code[1..] + "@" + tag;
      BeforeJoined(code[1..], tag);
    } else {
      assert (code + "@" + tag)[0] == '@';
    }
  }

  /** A restriction to sites: a tagged category goes with its site. */
  function OfSites(requested: set<Code>): Code -> bool {
    code => Relevant(Before(code, '@'), requested)
  }

  lemma {:induction false} KeepPutTags(t: Table, code: Code, tags: Table, requested: set<Code>)
    requires '@' !in code
    ensures Keep(PutTags(t, code, tags), OfSites(requested)) ==
            if Relevant(code, requested) then PutTags(Keep(t, OfSites(requested)), code, tags)
            else Keep(t, OfSites(requested))
    decreases |tags|
  {
    if tags != [] {
      var last := tags[|tags| - 1];
      KeepPutTags(t, code, tags[..|tags| - 1], requested);
      BeforeJoined(code, last.code);
      KeepPut(PutTags(t, code, tags[..|tags| - 1]), OfSites(requested), code + "@" + last.code, Unique(last.domains));
    }
  }

  lemma KeepAddSite(text: Text, t: Table, code: Code, site: ParsedSite, requested: set<Code>)
    requires '@' !in code && AddSite(text, t, code, site).Some?
    ensures var kept := Keep(t, OfSites(requested));
      if Relevant(code, requested)
      then AddSite(text, kept, code, site) == Some(Keep(AddSite(text, t, code, site).value, OfSites(requested)))
      else Keep(AddSite(text, t, code, site).value, OfSites(requested)) == kept
  {
    var rules := SiteRules(text, site.domains).value;
    BeforeJoined(code, "");
    KeepPut(t, OfSites(requested), code, Unique(rules.0));
    KeepPutTags(Put(t, code, Unique(rules.0)), code, rules.1, requested);
  }

  lemma {:induction false} KeepAssembled(text: Text, fs: seq<Field>, requested: set<Code>)
    requires PlainCodes(text, fs) && Assemble(text, fs, None).Some?
    ensures Assemble(text, fs, Some(requested)) ==
            Some(Keep(Assemble(text, fs, None).value, OfSites(requested)))
    decreases |fs|
  {
    if fs != [] {
      var before, last := fs[..|fs| - 1], fs[|fs| - 1];
      KeepAssembled(text, before, requested);
      KeepAddField(text, Assemble(text, before, None).value, last, requested);
    }
  }

  lemma AddFieldWhen(text: Text, t: Table, f: Field, requested: set<Code>, code: Code, site: ParsedSite)
    requires IsBlock(f, 1) && SiteIn(text, f.payload) == Some(site)
    requires site.code != "" && Normalize(text, site.code) == Some(code)
    ensures AddField(text, t, f, Some(requested)) ==
            if Relevant(code, requested) then AddSite(text, t, code, site) else Some(t)
  {
  }

  lemma KeepAddField(text: Text, t: Table, f: Field, requested: set<Code>)
    requires PlainCodes(text, [f]) && AddField(text, t, f, None).Some?
    ensures AddField(text, Keep(t, OfSites(requested)), f, Some(requested)) ==
            Some(Keep(AddField(text, t, f, None).value, OfSites(requested)))
  {
    assert [f][0] == f;
    if IsBlock(f, 1) && SiteCodeIn(text, f.payload).value != "" {
      var code, site := Normalize(text, SiteCodeIn(text, f.payload).value).value, SiteIn(text, f.payload).value;
      assert AddField(text, t, f, None) == AddSite(text, t, code, site);
      KeepAddSite(text, t, code, site, requested);
      AddFieldWhen(text, Keep(t, OfSites(requested)), f, requested, code, site);
    }
  }

  lemma {:induction false} PutTagsProper(t: Table, code: Code, tags: Table)
    requires Proper(t)
    ensures Proper(PutTags(t, code, tags))
    decreases |tags|
  {
    if tags != [] {
      var last := tags[|tags| - 1];
      PutTagsProper(t, code, tags[..|tags| - 1]);
      PutProper(PutTags(t, code, tags[..|tags| - 1]), code + "@" + last.code, Unique(last.domains));
    }
  }

  lemma {:induction false} AssembledProper(text: Text, fs: seq<Field>, requested: Option<set<Code>>)
    requires Assemble(text, fs, requested).Some?
    ensures Proper(Assemble(text, fs, requested).value)
    decreases |fs|
  {
    if fs != [] {
      AssembledProper(text, fs[..|fs| - 1], requested);
      AddedProper(text, Assemble(text, fs[..|fs| - 1], requested).value, fs[|fs| - 1], requested);
    }
  }

  lemma AddedProper(text: Text, t: Table, f: Field, requested: Option<set<Code>>)
    requires Proper(t) && AddField(text, t, f, requested).Some?
    ensures Proper(AddField(text, t, f, requested).value)
  {
    if AddField(text, t, f, requested).value != t {
      var code := Normalize(text, SiteCodeIn(text, f.payload).value).value;
      var rules := SiteRules(text, SiteIn(text, f.payload).value.domains).value;
      PutProper(t, code, Unique(rules.0));
      PutTagsProper(Put(t, code, Unique(rules.0)), code, rules.1);
    }
  }
}
