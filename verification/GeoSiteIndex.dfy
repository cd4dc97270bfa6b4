/** When the list of codes is the list of parsed categories. */
module GeoSiteIndex {
  import opened Options
  import opened ProtoReader
  import opened GeoSiteMessages
  import opened GeoSiteRules
  import opened Strings
  import opened GeoSiteTable
  import opened GeoSiteDatabase
  import opened GeoSiteAgreement
  import opened GeoSiteEncoding

  function CodeSet(t: Table): set<Code> {
    set i | 0 <= i < |t| :: t[i].code
  }

  lemma CodeSetIn(t: Table, code: Code)
    ensures code in CodeSet(t) <==> code in Codes(t)
    ensures code in CodeSet(t) <==> Find(t, code).Some?
  {
    FindIn(t, code);
    if code in CodeSet(t) {
      var i :| 0 <= i < |t| && t[i].code == code;
      assert Codes(t)[i] == code;
    }
  }

  lemma PutCodeSet(t: Table, code: Code, domains: seq<Domain>)
    ensures CodeSet(Put(t, code, domains)) == CodeSet(t) + {code}
  {
    PutCodes(t, code, domains);
    forall c ensures c in CodeSet(Put(t, code, domains)) <==> c in CodeSet(t) + {code} {
      CodeSetIn(Put(t, code, domains), c);
      CodeSetIn(t, c);
    }
  }

  // ---------------------------------------------------------------- both routes name the same codes

  function Joined(code: Code, tags: Table): set<Code> {
    set tag | tag in CodeSet(tags) :: code + "@" + tag
  }

  lemma JoinedPut(code: Code, tags: Table, tag: Code, domains: seq<Domain>)
    ensures Joined(code, Put(tags, tag, domains)) == Joined(code, tags) + {code + "@" + tag}
  {
    PutCodeSet(tags, tag, domains);
  }

  lemma {:induction false} SameTags(text: Text, codes: set<Code>, code: Code, tags: Table, attributes: seq<string>, rules: seq<Domain>)
    requires AddTags(text, tags, attributes, rules).Some?
    ensures AddTagCodes(text, codes + Joined(code, tags), code, attributes) ==
            Some(codes + Joined(code, AddTags(text, tags, attributes, rules).value))
    decreases |attributes|
  {
    if attributes != [] {
      var front := attributes[..|attributes| - 1];
      SameTags(text, codes, code, tags, front, rules);
      var before := AddTags(text, tags, front, rules).value;
      var tag := Normalize(text, attributes[|attributes| - 1]).value;
      JoinedPut(code, before, tag, OrEmpty(Find(before, tag)) + rules);
      assert (codes + Joined(code, before)) + {code + "@" + tag} == codes + (Joined(code, before) + {code + "@" + tag});
    }
  }

  lemma {:induction false} SameSite(text: Text, codes: set<Code>, code: Code, domains: seq<ParsedDomain>)
    requires SiteRules(text, domains).Some?
    ensures AddSiteCodes(text, codes, code, domains) ==
            Some(codes + Joined(code, SiteRules(text, domains).value.1))
    decreases |domains|
  {
    if domains == [] {
      assert codes + Joined(code, []) == codes;
    } else {
      var front, last := domains[..|domains| - 1], domains[|domains| - 1];
      SameSite(text, codes, code, front);
      SameTags(text, codes, code, SiteRules(text, front).value.1, last.attributes, Convert(text, last).value);
    }
  }

  lemma JoinedPush(code: Code, tags: Table)
    requires tags != []
    ensures Joined(code, tags) == Joined(code, tags[..|tags| - 1]) + {code + "@" + tags[|tags| - 1].code}
  {
    var front, last := tags[..|tags| - 1], tags[|tags| - 1];
    assert tags == front + [last];
    assert CodeSet(tags) == CodeSet(front) + {last.code};
  }

  lemma {:induction false} PutTagsCodes(t: Table, code: Code, tags: Table)
    ensures CodeSet(PutTags(t, code, tags)) == CodeSet(t) + Joined(code, tags)
    decreases |tags|
  {
    if tags == [] {
      assert CodeSet(t) + Joined(code, tags) == CodeSet(t);
    } else {
      var front, last := tags[..|tags| - 1], tags[|tags| - 1];
      PutTagsCodes(t, code, front);
      PutCodeSet(PutTags(t, code, front), code + "@" + last.code, Unique(last.domains));
      JoinedPush(code, tags);
      assert (CodeSet(t) + Joined(code, front)) + {code + "@" + last.code}
          == CodeSet(t) + (Joined(code, front) + {code + "@" + last.code});
    }
  }

  /** Sites without a code are skipped by the full parse before their domains are read. */
  ghost predicate ReadableWithoutCode(text: Text, fs: seq<Field>) {
    forall i | 0 <= i < |fs| && IsBlock(fs[i], 1) && SiteCodeIn(text, fs[i].payload) == Some("") ::
      SiteIn(text, fs[i].payload).Some?
  }

  lemma SameField(text: Text, t: Table, f: Field)
    requires AddField(text, t, f, None).Some?
    ensures AddFieldCodes(text, CodeSet(t), f) ==
            if ReadableWithoutCode(text, [f]) then Some(CodeSet(AddField(text, t, f, None).value)) else None
  {
    assert [f][0] == f;
    if IsBlock(f, 1) && SiteCodeIn(text, f.payload).value != "" {
      var site := SiteIn(text, f.payload).value;
      var code := Normalize(text, site.code).value;
      var rules := SiteRules(text, site.domains).value;
      PutCodeSet(t, code, Unique(rules.0));
      PutTagsCodes(Put(t, code, Unique(rules.0)), code, rules.1);
      SameSite(text, CodeSet(t) + {code}, code, site.domains);
    }
  }

  lemma {:induction false} SameCodes(text: Text, fs: seq<Field>)
    requires Assemble(text, fs, None).Some?
    ensures AllCodes(text, fs) ==
            if ReadableWithoutCode(text, fs) then Some(CodeSet(Assemble(text, fs, None).value)) else None
    decreases |fs|
  {
    if fs == [] {
      assert CodeSet([]) == {};
    } else {
      var front, last := fs[..|fs| - 1], fs[|fs| - 1];
      SameCodes(text, front);
      SameField(text, Assemble(text, front, None).value, last);
      ReadableParts(text, fs);
    }
  }

  lemma ReadableParts(text: Text, fs: seq<Field>)
    requires fs != []
    ensures ReadableWithoutCode(text, fs) <==>
            ReadableWithoutCode(text, fs[..|fs| - 1]) && ReadableWithoutCode(text, [fs[|fs| - 1]])
  {
    var front, last := fs[..|fs| - 1], fs[|fs| - 1];
    assert fs == front + [last];
    assert forall i | 0 <= i < |front| :: front[i] == fs[i];
  }

  // ---------------------------------------------------------------- tags

  /** Every tagged category has its site. */
  ghost predicate HasSites(t: Table) {
    forall code | code in CodeSet(t) && Tagged(code) :: Base(code) in CodeSet(t)
  }

  lemma {:induction false} AssembledSites(text: Text, fs: seq<Field>)
    requires PlainCodes(text, fs) && Assemble(text, fs, None).Some?
    ensures HasSites(Assemble(text, fs, None).value)
    decreases |fs|
  {
    if fs != [] {
      var front, last := fs[..|fs| - 1], fs[|fs| - 1];
      AssembledSites(text, front);
      AddedSites(text, Assemble(text, front, None).value, last);
    }
  }

  lemma AddedSites(text: Text, t: Table, f: Field)
    requires HasSites(t) && PlainCodes(text, [f]) && AddField(text, t, f, None).Some?
    ensures HasSites(AddField(text, t, f, None).value)
  {
    assert [f][0] == f;
    if IsBlock(f, 1) && SiteCodeIn(text, f.payload).value != "" {
      var site := SiteIn(text, f.payload).value;
      var code := Normalize(text, site.code).value;
      var rules := SiteRules(text, site.domains).value;
      PutCodeSet(t, code, Unique(rules.0));
      PutTagsCodes(Put(t, code, Unique(rules.0)), code, rules.1);
      forall c | c in Joined(code, rules.1) ensures Base(c) == code {
        var tag :| tag in CodeSet(rules.1) && c == code + "@" + tag;
        BeforeJoined(code, tag);
      }
      NoMark(code);
    }
  }

  lemma {:induction false} NoMark(code: Code)
    requires '@' !in code
    ensures Count(code, '@') == 0
  {
    if code != "" { NoMark(code[1..]); }
  }

  /** A category that is no site of an exclusion is left alone. */
  lemma {:induction false} NotExcluded(t: Table, codes: seq<Code>, other: Code)
    requires Proper(t) && Listed(t, codes) && other !in codes
    requires forall i | 0 <= i < |codes| :: Base(codes[i]) != other
    ensures ExcludeAll(t, codes).Some? && Find(ExcludeAll(t, codes).value, other) == Find(t, other)
    decreases |codes|
  {
    if codes != [] {
      assert codes[0] in Codes(t);
      ExcludedOne(t, codes[0], other);
      StillListed(t, codes);
      assert forall i | 0 <= i < |codes[1..]| :: codes[1..][i] == codes[i + 1];
      NotExcluded(ExcludeOne(t, codes[0]).value, codes[1..], other);
    }
  }

  lemma FilteredCodes(t: Table, code: Code)
    requires Proper(t) && HasSites(t)
    ensures FilterTags(t).Some?
    ensures code in CodeSet(FilterTags(t).value) <==> code in CodeSet(t) && !Repeats(code) && !Excludes(code)
  {
    TagsFiltered(t, code);
    CodeSetIn(t, code);
    CodeSetIn(FilterTags(t).value, code);
    if !Tagged(code) && code !in CodeSet(t) {
      ListedExclusions(t);
      KeepRepeats(t, code);
      ExclusionsIn(t, code);
      forall i | 0 <= i < |Exclusions(t)| ensures Base(Exclusions(t)[i]) != code {
        assert Exclusions(t)[i] in Exclusions(t);
        ExclusionsIn(t, Exclusions(t)[i]);
        CodeSetIn(t, Exclusions(t)[i]);
      }
      NotExcluded(Keep(t, NotRepeating()), Exclusions(t), code);
      FindIn(Keep(t, NotRepeating()), code);
    }
  }

  lemma FilteredSet(t: Table)
    requires Proper(t) && HasSites(t)
    ensures FilterTags(t).Some? && CodeSet(FilterTags(t).value) == FilterCodes(CodeSet(t))
  {
    FilteredCodes(t, "");
    forall code ensures code in CodeSet(FilterTags(t).value) <==> code in FilterCodes(CodeSet(t)) {
      FilteredCodes(t, code);
    }
  }

  lemma MergedCodes(t: Table)
    ensures CodeSet(CompileAll(MergeChinese(t))) ==
            if MergedChinese(t) == [] then CodeSet(t) else CodeSet(t) + {GEOLOCATION_CN, CN}
  {
    var m := MergedChinese(t);
    PutCodeSet(t, GEOLOCATION_CN, m);
    PutCodeSet(Put(t, GEOLOCATION_CN, m), CN, Unique(m + [Domain(Suffix, ".cn")]));
    SameCodeSet(MergeChinese(t), CompileAll(MergeChinese(t)));
  }

  lemma SameCodeSet(t: Table, t': Table)
    requires |t'| == |t| && forall i | 0 <= i < |t| :: t'[i].code == t[i].code
    ensures CodeSet(t') == CodeSet(t)
  {
  }

  // ---------------------------------------------------------------- the list is the parse

  /** The Chinese categories are merged only into a category that is there, and a category that is
      there but gathers nothing has its alias as a site of its own. */
  predicate ChineseListed(t: Table) {
    if MergedChinese(t) == [] then GEOLOCATION_CN in CodeSet(t) ==> CN in CodeSet(t)
    else GEOLOCATION_CN in CodeSet(t)
  }

  /** For every database that parses and has no '@' in a site's code, the list of codes is exactly
      the categories of the parse if and only if the sites without a code are well formed and the
      Chinese categories are listed as they are merged. */
  lemma ListedIsParsed(text: Text, b: seq<Byte>)
    requires ParseDatabase(text, b, None).Some? && PlainCodes(text, Fields(b).value)
    ensures var assembled := Assemble(text, Fields(b).value, None).value;
      && FilterTags(assembled).Some?
      && (ListCodes(text, b) == Some(CodeSet(ParseDatabase(text, b, None).value))
          <==> ReadableWithoutCode(text, Fields(b).value) && ChineseListed(FilterTags(assembled).value))
  {
    var fs := Fields(b).value;
    var assembled := Assemble(text, fs, None).value;
    AssembledProper(text, fs, None);
    AssembledSites(text, fs);
    SameCodes(text, fs);
    FilteredSet(assembled);
    MergedCodes(FilterTags(assembled).value);
    if ReadableWithoutCode(text, fs) {
      ListedSet(FilterTags(assembled).value, ParseDatabase(text, b, None).value);
    }
  }

  lemma ListedSet(t: Table, parsed: Table)
    requires parsed != [] && parsed == CompileAll(MergeChinese(t))
    ensures var codes := CodeSet(t);
      var all := if GEOLOCATION_CN in codes then codes + {CN} else codes;
      (all != {} && all == CodeSet(parsed)) <==> ChineseListed(t)
  {
    var codes := CodeSet(t);
    var all := if GEOLOCATION_CN in codes then codes + {CN} else codes;
    MergedCodes(t);
    assert parsed[0].code in CodeSet(parsed);
    assert GEOLOCATION_CN in codes + {GEOLOCATION_CN, CN};
    if MergedChinese(t) == [] {
      assert all == codes <==> ChineseListed(t);
    } else if GEOLOCATION_CN in codes {
      assert all == codes + {GEOLOCATION_CN, CN};
    } else {
      assert GEOLOCATION_CN !in all;
    }
  }

  // ---------------------------------------------------------------- databases whose list is short

  /** One site, in a Chinese category, with one domain. */
  ghost predicate LoneChinese(text: Text, site: ParsedSite) {
    && Normalize(text, site.code) == Some(site.code) && '@' !in site.code && Chinese(site.code)
    && |site.domains| == 1 && site.domains[0].attributes == [] && Convert(text, site.domains[0]).Some?
  }

  lemma LoneAssembled(text: Text, f: Field, site: ParsedSite)
    requires LoneChinese(text, site) && IsBlock(f, 1) && SiteIn(text, f.payload) == Some(site)
    ensures Assemble(text, [f], None) == Some([Entry(site.code, Unique(Convert(text, site.domains[0]).value))])
  {
    var d := site.domains[0];
    var rules := Convert(text, d).value;
    assert [f][..0] == [] && site.domains == [d] && [d][..0] == [] && [] + rules == rules;
    assert SiteRules(text, []) == Some(([], []));
    assert AddTags(text, [], d.attributes, rules) == Some([]);
    assert SiteRules(text, [d]) == Some((rules, []));
    assert Put([], site.code, Unique(rules)) == [Entry(site.code, Unique(rules))];
  }

  lemma LoneFiltered(t: Table)
    requires |t| == 1 && Chinese(t[0].code) && '@' !in t[0].code && t[0].domains != []
    ensures FilterTags(t) == Some(t) && MergedChinese(t) != [] && t[0].code != GEOLOCATION_CN
  {
    NoMark(t[0].code);
    assert t == [t[0]] && t[1..] == [];
    assert Exclusions(t) == [] && Keep(t, NotRepeating()) == t;
    assert t[0].code[0] == 'c';
    assert Gathered(t) == t[0].domains + [];
    UniqueIn(OrEmpty(Find(t, GEOLOCATION_CN)) + Gathered(t), t[0].domains[0]);
  }

  lemma LoneCodes(t: Table, code: Code)
    requires |t| == 1 && t[0].code == code && Chinese(code) && '@' !in code && t[0].domains != []
    ensures CodeSet(t) == {code} && Finished(t, None).Some?
    ensures CodeSet(Finished(t, None).value) == {code, GEOLOCATION_CN, CN}
  {
    LoneFiltered(t);
    MergedCodes(t);
    assert GEOLOCATION_CN in CodeSet(CompileAll(MergeChinese(t)));
  }

  lemma LoneListed(text: Text, b: seq<Byte>, f: Field, site: ParsedSite, t: Table)
    requires LoneChinese(text, site) && IsBlock(f, 1) && SiteIn(text, f.payload) == Some(site)
    requires RightSize(b) && Fields(b) == Some([f]) && Assemble(text, [f], None) == Some(t) && CodeSet(t) == {site.code}
    ensures ListCodes(text, b) == Some({site.code})
  {
    SameCodes(text, [f]);
    ChineseStays(site.code);
  }

  lemma ChineseStays(code: Code)
    requires Chinese(code) && '@' !in code
    ensures FilterCodes({code}) == {code} && code != GEOLOCATION_CN
  {
    NoMark(code);
    assert code[0] == 'c';
  }

  lemma LoneEncoded(text: Text, encode: Encoder, site: ParsedSite) returns (f: Field)
    requires Sayable(text, encode, site) && RightSize(EncodeDatabase(encode, [site]))
    ensures Fields(EncodeDatabase(encode, [site])) == Some([f])
    ensures IsBlock(f, 1) && SiteIn(text, f.payload) == Some(site)
  {
    DatabaseInverts(text, encode, [site]);
    f := Fields(EncodeDatabase(encode, [site])).value[0];
    assert Fields(EncodeDatabase(encode, [site])).value == [f];
  }

  lemma LoneParsed(text: Text, b: seq<Byte>, f: Field, site: ParsedSite)
    requires LoneChinese(text, site) && IsBlock(f, 1) && SiteIn(text, f.payload) == Some(site)
    requires RightSize(b) && Fields(b) == Some([f])
    ensures var parsed := ParseDatabase(text, b, None); (
      && parsed.Some? && CodeSet(parsed.value) == {site.code, GEOLOCATION_CN, CN}
      && ListCodes(text, b) == Some({site.code}))
  {
    var rules := Convert(text, site.domains[0]).value;
    var t := [Entry(site.code, Unique(rules))];
    LoneAssembled(text, f, site);
    UniqueIn(rules, rules[0]);
    LoneCodes(t, site.code);
    LoneListed(text, b, f, site, t);
  }

  /** The parse of such a database has the merged Chinese categories, and the list of codes lacks them. */
  lemma ListMissesMerged(text: Text, encode: Encoder, site: ParsedSite)
    requires LoneChinese(text, site) && Sayable(text, encode, site) && RightSize(EncodeDatabase(encode, [site]))
    ensures var b := EncodeDatabase(encode, [site]); var parsed := ParseDatabase(text, b, None); (
      && parsed.Some? && CodeSet(parsed.value) == {site.code, GEOLOCATION_CN, CN}
      && ListCodes(text, b) == Some({site.code}))
  {
    var f := LoneEncoded(text, encode, site);
    LoneParsed(text, EncodeDatabase(encode, [site]), f, site);
  }
}
