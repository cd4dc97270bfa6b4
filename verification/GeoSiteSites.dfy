/** What one site of a database adds to the categories: which values and codes are accepted, which rules
    a category gets and in which order, and which sites are never read. */
module GeoSiteSites {
  import opened Options
  import opened Strings
  import opened ProtoReader
  import opened GeoSiteMessages
  import opened GeoSiteRules
  import opened GeoSiteTable
  import opened GeoSiteDatabase
  import A = GeoSiteAgreement
  import T = GeoSiteTags

  // ---------------------------------------------------------------- values and codes

  /** A domain is refused if and only if its trimmed value is empty or holds a NUL or a line break, or
      its kind is none of the four. */
  lemma Refused(text: Text, d: ParsedDomain)
    ensures var value := text.trim(d.value);
      Convert(text, d).None? <==> value == "" || '\0' in value || '\r' in value || '\n' in value || d.kind > 3
  {
    var value := text.trim(d.value);
    if !CleanValue(value) && value != "" {
      var c :| c in value && (c == '\0' || c == '\r' || c == '\n');
    }
  }

  /** The rules a domain gives: a keyword, a pattern, a suffix, or the one name; a name with a dot in it
      gives itself before the suffix. */
  lemma RulesGiven(text: Text, d: ParsedDomain)
    requires Convert(text, d).Some?
    ensures var value, rules := text.trim(d.value), Convert(text, d).value; (
      && (d.kind == 0 ==> rules == [Domain(Keyword, value)])
      && (d.kind == 1 ==> rules == [Domain(Pattern, value)])
      && (d.kind == 3 ==> rules == [Domain(Exact, value)])
      && (d.kind == 2 ==> |rules| >= 1 && rules[|rules| - 1] == Domain(Suffix, "." + value)
                          && ('.' in value ==> |rules| == 2 && rules[0] == Domain(Exact, value))
                          && ('.' !in value ==> |rules| == 1)))
  {
  }

  /** The letters a code is made of. */
  const LETTERS := "abcdefghijklmnopqrstuvwxyz"
  const DIGITS := "0123456789"
  const MARKS := "_@.!+-"

  lemma LetterExact(c: char)
    ensures 'a' <= c <= 'z' <==> c in LETTERS
  {
    if 'a' <= c <= 'z' { assert LETTERS[c as int - 'a' as int] == c; }
  }

  lemma DigitExact(c: char)
    ensures '0' <= c <= '9' <==> c in DIGITS
  {
    if '0' <= c <= '9' { assert DIGITS[c as int - '0' as int] == c; }
  }

  /** A code is accepted if and only if, trimmed and in lower case, it is one to eighty letters long and
      has no other character. */
  lemma CodeAccepted(text: Text, raw: string, code: Code)
    ensures Normalize(text, raw) == Some(code) <==>
            && code == text.canonical(raw) && 1 <= |code| <= 80
            && forall i | 0 <= i < |code| :: code[i] in LETTERS || code[i] in DIGITS || code[i] in MARKS
  {
    forall c ensures CodeChar(c) <==> c in LETTERS || c in DIGITS || c in MARKS {
      LetterExact(c);
      DigitExact(c);
    }
    var s := text.canonical(raw);
    assert (forall c | c in s :: CodeChar(c)) <==> (forall i | 0 <= i < |s| :: CodeChar(s[i]));
  }

  // ---------------------------------------------------------------- the rules of a site

  /** The domain can be used: its value and all its attributes are accepted. */
  predicate Usable(text: Text, d: ParsedDomain) {
    Convert(text, d).Some? && forall i | 0 <= i < |d.attributes| :: Normalize(text, d.attributes[i]).Some?
  }

  predicate AllUsable(text: Text, domains: seq<ParsedDomain>) {
    forall i | 0 <= i < |domains| :: Usable(text, domains[i])
  }

  /** The rules of all domains, one domain after the other. */
  function AllRules(text: Text, domains: seq<ParsedDomain>): seq<Domain>
    requires AllUsable(text, domains)
  {
    if domains == [] then []
    else AllRules(text, domains[..|domains| - 1]) + Convert(text, domains[|domains| - 1]).value
  }

  /** A domain's rules, once for every attribute that is the tag. */
  function Repeated(text: Text, attributes: seq<string>, tag: Code, rules: seq<Domain>): seq<Domain> {
    if attributes == [] then []
    else Repeated(text, attributes[..|attributes| - 1], tag, rules)
         + (if Normalize(text, attributes[|attributes| - 1]) == Some(tag) then rules else [])
  }

  /** The rules of the domains with a tag. */
  function TaggedRules(text: Text, domains: seq<ParsedDomain>, tag: Code): seq<Domain>
    requires AllUsable(text, domains)
  {
    if domains == [] then []
    else
      var last := domains[|domains| - 1];
      TaggedRules(text, domains[..|domains| - 1], tag) + Repeated(text, last.attributes, tag, Convert(text, last).value)
  }

  lemma {:induction false} TagsAdded(text: Text, tags: Table, attributes: seq<string>, rules: seq<Domain>, tag: Code)
    ensures AddTags(text, tags, attributes, rules).Some? <==>
            forall i | 0 <= i < |attributes| :: Normalize(text, attributes[i]).Some?
    ensures AddTags(text, tags, attributes, rules).Some? ==>
      var after := AddTags(text, tags, attributes, rules).value; (
      && OrEmpty(Find(after, tag)) == OrEmpty(Find(tags, tag)) + Repeated(text, attributes, tag, rules)
      && (Find(after, tag).Some? <==> Find(tags, tag).Some? || A.HasTag(text, attributes, tag)))
    decreases |attributes|
  {
    if attributes != [] {
      var front, last := attributes[..|attributes| - 1], attributes[|attributes| - 1];
      TagsAdded(text, tags, front, rules, tag);
      assert forall i | 0 <= i < |front| :: attributes[i] == front[i];
      var before, t := AddTags(text, tags, front, rules), Normalize(text, last);
      if before.Some? && t.Some? {
        PutFind(before.value, t.value, OrEmpty(Find(before.value, t.value)) + rules, tag);
        assert A.HasTag(text, attributes, tag) <==> A.HasTag(text, front, tag) || t == Some(tag);
      }
    }
  }

  ghost predicate SomeTag(text: Text, domains: seq<ParsedDomain>, tag: Code) {
    exists i :: 0 <= i < |domains| && A.HasTag(text, domains[i].attributes, tag)
  }

  lemma {:induction false} RulesOfSite(text: Text, domains: seq<ParsedDomain>, tag: Code)
    ensures SiteRules(text, domains).Some? <==> AllUsable(text, domains)
    ensures AllUsable(text, domains) ==>
      var rules := SiteRules(text, domains).value; (
      && rules.0 == AllRules(text, domains)
      && OrEmpty(Find(rules.1, tag)) == TaggedRules(text, domains, tag)
      && (Find(rules.1, tag).Some? <==> SomeTag(text, domains, tag)))
    decreases |domains|
  {
    if domains != [] {
      var front, last := domains[..|domains| - 1], domains[|domains| - 1];
      RulesOfSite(text, front, tag);
      assert forall i | 0 <= i < |front| :: domains[i] == front[i];
      assert AllUsable(text, domains) <==> AllUsable(text, front) && Usable(text, last);
      assert SomeTag(text, domains, tag) <==> SomeTag(text, front, tag) || A.HasTag(text, last.attributes, tag);
      if AllUsable(text, front) && Convert(text, last).Some? {
        TagsAdded(text, SiteRules(text, front).value.1, last.attributes, Convert(text, last).value, tag);
      }
    }
  }

  lemma {:induction false} TagsProper(text: Text, tags: Table, attributes: seq<string>, rules: seq<Domain>)
    requires Proper(tags) && AddTags(text, tags, attributes, rules).Some?
    ensures Proper(AddTags(text, tags, attributes, rules).value)
    decreases |attributes|
  {
    if attributes != [] {
      var front := attributes[..|attributes| - 1];
      var before, t := AddTags(text, tags, front, rules).value, Normalize(text, attributes[|attributes| - 1]).value;
      TagsProper(text, tags, front, rules);
      PutProper(before, t, OrEmpty(Find(before, t)) + rules);
    }
  }

  lemma {:induction false} SiteTagsProper(text: Text, domains: seq<ParsedDomain>)
    requires SiteRules(text, domains).Some?
    ensures Proper(SiteRules(text, domains).value.1)
    decreases |domains|
  {
    if domains != [] {
      var front, last := domains[..|domains| - 1], domains[|domains| - 1];
      SiteTagsProper(text, front);
      TagsProper(text, SiteRules(text, front).value.1, last.attributes, Convert(text, last).value);
    }
  }

  lemma SameTag(code: Code, a: Code, b: Code)
    ensures code + "@" + a == code + "@" + b <==> a == b
  {
    var x, y := code + "@" + a, code + "@" + b;
    assert x[|code| + 1..] == a && y[|code| + 1..] == b;
  }

  lemma {:induction false} FindLast(tags: Table, tag: Code)
    requires tags != [] && Proper(tags)
    ensures var last := tags[|tags| - 1];
      Find(tags, tag) == if tag == last.code then Some(last.domains) else Find(tags[..|tags| - 1], tag)
  {
    if |tags| > 1 {
      assert tags[1..][..|tags| - 2] == tags[..|tags| - 1][1..];
      FindLast(tags[1..], tag);
    }
  }

  lemma {:induction false} TagsPut(t: Table, code: Code, tags: Table, other: Code)
    requires Proper(tags)
    ensures (forall tag :: other != code + "@" + tag) ==> Find(PutTags(t, code, tags), other) == Find(t, other)
    ensures forall tag | other == code + "@" + tag ::
      Find(PutTags(t, code, tags), other) ==
      if Find(tags, tag).Some? then Some(Unique(Find(tags, tag).value)) else Find(t, other)
    decreases |tags|
  {
    if tags != [] {
      var front, last := tags[..|tags| - 1], tags[|tags| - 1];
      TagsPut(t, code, front, other);
      PutFind(PutTags(t, code, front), code + "@" + last.code, Unique(last.domains), other);
      forall tag | other == code + "@" + tag
        ensures Find(PutTags(t, code, tags), other) ==
                if Find(tags, tag).Some? then Some(Unique(Find(tags, tag).value)) else Find(t, other) {
        FindLast(tags, tag);
        SameTag(code, tag, last.code);
      }
    }
  }

  /** A site with a code replaces the category of that code by the rules of its domains, and for every
      attribute of them the category tagged with it by the rules of the domains that have it, each rule
      where it comes first. No other category changes. */
  lemma SiteStored(text: Text, t: Table, code: Code, site: ParsedSite, other: Code)
    requires '@' !in code
    ensures AddSite(text, t, code, site).Some? <==> AllUsable(text, site.domains)
    ensures AllUsable(text, site.domains) ==>
      var after := AddSite(text, t, code, site).value; (
      && (other == code ==>
            Find(after, other).Some? && T.FirstsOf(Find(after, other).value, AllRules(text, site.domains)))
      && (forall tag | other == code + "@" + tag && SomeTag(text, site.domains, tag) ::
            Find(after, other).Some? && T.FirstsOf(Find(after, other).value, TaggedRules(text, site.domains, tag)))
      && (other != code && (forall tag | other == code + "@" + tag :: !SomeTag(text, site.domains, tag)) ==>
            Find(after, other) == Find(t, other)))
  {
    RulesOfSite(text, site.domains, "");
    if AllUsable(text, site.domains) {
      var rules := SiteRules(text, site.domains).value;
      var first := Put(t, code, Unique(rules.0));
      SiteTagsProper(text, site.domains);
      TagsPut(first, code, rules.1, other);
      PutFind(t, code, Unique(rules.0), other);
      T.UniqueFirsts(rules.0);
      forall tag ensures code != code + "@" + tag { assert |code + "@" + tag| > |code|; }
      forall tag | other == code + "@" + tag
        ensures Find(rules.1, tag).Some? <==> SomeTag(text, site.domains, tag)
        ensures OrEmpty(Find(rules.1, tag)) == TaggedRules(text, site.domains, tag)
        ensures T.FirstsOf(Unique(TaggedRules(text, site.domains, tag)), TaggedRules(text, site.domains, tag)) {
        RulesOfSite(text, site.domains, tag);
        T.UniqueFirsts(TaggedRules(text, site.domains, tag));
      }
    }
  }

  // ---------------------------------------------------------------- the sites that are read

  /** A site with this code can matter to the request: it is asked for, or one of its tags is, or it may
      belong to the Chinese categories and those are asked for. */
  ghost predicate Matters(code: Code, requested: set<Code>) {
    || code in requested
    || (exists tag :: code + "@" + tag in requested)
    || (("cn" in requested || "geolocation-cn" in requested) && (code == "geolocation-cn" || T.Begins(code, "category-")))
  }

  lemma MattersExact(code: Code, requested: set<Code>)
    ensures Relevant(code, requested) <==> Matters(code, requested)
  {
    T.BeginsExact(code, "category-");
    if item :| item in requested && StartsWith(item, code + "@") {
      assert item == code + "@" + item[|code| + 1..];
    }
    if tag :| code + "@" + tag in requested {
      assert StartsWith(code + "@" + tag, code + "@");
    }
  }

  /** A site that cannot matter to the request is passed over, whatever stands in it beside its code. */
  lemma PassedOver(text: Text, t: Table, f: Field, requested: set<Code>, raw: string, code: Code)
    requires IsBlock(f, 1) && SiteCodeIn(text, f.payload) == Some(raw) && raw != "" && Normalize(text, raw) == Some(code)
    ensures !Matters(code, requested) ==> AddField(text, t, f, Some(requested)) == Some(t)
    ensures Matters(code, requested) ==> AddField(text, t, f, Some(requested)) == AddField(text, t, f, None)
  {
    MattersExact(code, requested);
  }

  /** Reading everything fails at a site if and only if its code cannot be read, or is not empty and not
      accepted, or with a code the site cannot be read or one of its domains cannot be used; sites
      without a code and other fields are passed over. */
  lemma FieldStored(text: Text, t: Table, f: Field)
    ensures AddField(text, t, f, None).None? <==>
            && f.Block? && f.id == 1
            && var raw := SiteCodeIn(text, f.payload);
               raw.None? || (raw.value != "" &&
                             (|| Normalize(text, raw.value).None?
                              || SiteIn(text, f.payload).None?
                              || !AllUsable(text, SiteIn(text, f.payload).value.domains)))
    ensures f.Block? && f.id == 1 && SiteCodeIn(text, f.payload).Some? && SiteCodeIn(text, f.payload).value != "" ==>
      AddField(text, t, f, None).Some? ==>
      AddField(text, t, f, None) ==
      AddSite(text, t, Normalize(text, SiteCodeIn(text, f.payload).value).value, SiteIn(text, f.payload).value)
    ensures !(f.Block? && f.id == 1) || SiteCodeIn(text, f.payload) == Some("") ==> AddField(text, t, f, None) == Some(t)
  {
    if IsBlock(f, 1) && SiteIn(text, f.payload).Some? {
      RulesOfSite(text, SiteIn(text, f.payload).value.domains, "");
    }
  }

  // ---------------------------------------------------------------- compaction

  /** The suffix rule covers a name: it is the name with a dot before it, or the name itself if that does
      not begin with a dot. */
  predicate Covers(s: Domain, name: string) {
    s.matcher.Suffix? && (s.value == "." + name || (s.value == name && (name == "" || name[0] != '.')))
  }

  lemma CoversExact(s: Domain, name: string)
    requires s.matcher.Suffix?
    ensures Covers(s, name) <==> Stripped(s.value) == name
  {
    if s.value != "" && s.value[0] == '.' { assert s.value == "." + s.value[1..]; }
  }

  /** Compaction leaves out exactly the names that a suffix of the same category covers. */
  lemma CompactedExact(values: seq<Domain>, d: Domain)
    ensures d in Compile(values) <==> d in values && !(d.matcher.Exact? && exists s :: s in values && Covers(s, d.value))
  {
    CompileIn(values, d);
    forall s | s in values && s.matcher.Suffix? ensures Covers(s, d.value) <==> Stripped(s.value) == d.value {
      CoversExact(s, d.value);
    }
  }

  lemma {:induction false} UncoveredAt(values: seq<Domain>, suffixes: set<string>, i: nat, k: nat) returns (a: nat, b: nat)
    requires i < k < |Uncovered(values, suffixes)|
    ensures a < b < |values| && values[a] == Uncovered(values, suffixes)[i] && values[b] == Uncovered(values, suffixes)[k]
    decreases |values|
  {
    var front := values[..|values| - 1];
    var before := Uncovered(front, suffixes);
    if k < |before| {
      a, b := UncoveredAt(front, suffixes, i, k);
    } else {
      UncoveredIn(front, suffixes, before[i]);
      a :| 0 <= a < |front| && front[a] == before[i];
      b := |values| - 1;
    }
  }

  /** It keeps the others in their order, each once. */
  lemma CompactedOrder(values: seq<Domain>)
    ensures T.InOrderOf(Compile(values), values)
  {
    T.UniqueFirsts(values);
    var once, r := Unique(values), Compile(values);
    forall i, k | 0 <= i < k < |r| ensures T.ComesFirst(values, r[i], r[k]) {
      var x, y := UncoveredAt(once, Suffixes(once), i, k);
      assert T.ComesFirst(values, once[x], once[y]);
    }
  }

  // ---------------------------------------------------------------- whole databases

  /** The categories known stay where they are, and the new ones of a site come after them, its own
      first. */
  lemma CodesAdded(text: Text, t: Table, code: Code, site: ParsedSite)
    requires AddSite(text, t, code, site).Some?
    ensures var before, after := Codes(t), Codes(AddSite(text, t, code, site).value); (
      before <= after && (code !in before ==> |before| < |after| && after[|before|] == code))
  {
    var rules := SiteRules(text, site.domains).value;
    var first := Put(t, code, Unique(rules.0));
    PutCodes(t, code, Unique(rules.0));
    TagCodes(first, code, rules.1);
    FindIn(t, code);
  }

  lemma {:induction false} TagCodes(t: Table, code: Code, tags: Table)
    ensures Codes(t) <= Codes(PutTags(t, code, tags))
    decreases |tags|
  {
    if tags != [] {
      var front, last := tags[..|tags| - 1], tags[|tags| - 1];
      TagCodes(t, code, front);
      PutCodes(PutTags(t, code, front), code + "@" + last.code, Unique(last.domains));
    }
  }

  /** No category is left once the tags are removed. */
  ghost predicate Bare(t: Table) {
    FilterTags(t).Some? && forall code :: Find(FilterTags(t).value, code).None?
  }

  lemma FinishedExact(t: Table, requested: Option<set<Code>>)
    requires Proper(t)
    ensures Finished(t, requested).None? <==> requested.None? && Bare(t)
  {
    A.TagsFiltered(t, "");
    NothingLeft(FilterTags(t).value);
  }

  /** A database is refused if and only if it is empty or longer than 64 MiB, is no message, fails at a
      site, or, when everything is asked for, leaves no category at all. */
  lemma DatabaseRefused(text: Text, b: seq<Byte>, requested: Option<set<Code>>)
    ensures ParseDatabase(text, b, requested).None? <==>
            || |b| == 0 || |b| > 67108864 || Fields(b).None? || Assemble(text, Fields(b).value, requested).None?
            || (requested.None? && Bare(Assemble(text, Fields(b).value, requested).value))
  {
    if RightSize(b) && Fields(b).Some? && Assemble(text, Fields(b).value, requested).Some? {
      AssembledProper(text, Fields(b).value, requested);
      FinishedExact(Assemble(text, Fields(b).value, requested).value, requested);
    }
  }

  lemma NothingLeft(t: Table)
    ensures CompileAll(MergeChinese(t)) == [] <==> forall code :: Find(t, code).None?
  {
    if t == [] {
      assert OrEmpty(Find([], GEOLOCATION_CN)) + Gathered([]) == [];
    } else {
      assert Find(t, t[0].code).Some?;
      MergedSome(t);
    }
  }

  lemma MergedSome(t: Table)
    requires t != []
    ensures MergeChinese(t) != []
  {
    if MergedChinese(t) != [] {
      var first := Put(t, GEOLOCATION_CN, MergedChinese(t));
      assert Put(first, CN, Unique(MergedChinese(t) + [Domain(Suffix, ".cn")])) != [];
    }
  }
}
