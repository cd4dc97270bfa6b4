/** The three routes agree: parsing with requested categories is the full parse restricted to them,
    and the list of codes is the list of parsed categories exactly when a stated condition holds. */
module GeoSiteAgreement {
  import opened Options
  import opened ProtoReader
  import opened GeoSiteMessages
  import opened GeoSiteRules
  import opened Strings
  import opened GeoSiteTable
  import opened GeoSiteDatabase

  // ---------------------------------------------------------------- tags

  lemma ListedExclusions(t: Table)
    requires Proper(t)
    ensures var kept := Keep(t, NotRepeating()); Proper(kept) && Listed(kept, Exclusions(t))
  {
    var kept := Keep(t, NotRepeating());
    KeepProper(t, NotRepeating());
    ExclusionsDifferent(t);
    forall i | 0 <= i < |Exclusions(t)| ensures Tagged(Exclusions(t)[i]) && Exclusions(t)[i] in Codes(kept) {
      var code := Exclusions(t)[i];
      assert code in Exclusions(t);
      ExclusionsIn(t, code);
      KeepIn(t, NotRepeating(), code);
    }
  }

  lemma KeepRepeats(t: Table, code: Code)
    ensures code in Codes(Keep(t, NotRepeating())) <==> code in Codes(t) && !Repeats(code)
    ensures !Repeats(code) ==> Find(Keep(t, NotRepeating()), code) == Find(t, code)
  {
    KeepIn(t, NotRepeating(), code);
  }

  /** The exclusion a site names is always there, so the removal of tags never fails. What is left of
      a plain category is what none of its exclusions holds; a tagged category stays as it was unless
      its attribute repeats the name or excludes it, and then it is gone. */
  lemma TagsFiltered(t: Table, code: Code)
    requires Proper(t)
    ensures var t' := FilterTags(t);
      && t'.Some? && Proper(t'.value)
      && (Tagged(code) ==> Find(t'.value, code) == if Repeats(code) || Excludes(code) then None else Find(t, code))
      && (!Tagged(code) && code in Codes(t) ==>
            Find(t'.value, code) ==
            Some(Without(OrEmpty(Find(t, code)), Taken(Keep(t, NotRepeating()), Exclusions(t), code))))
  {
    ListedExclusions(t);
    ExclusionsIn(t, code);
    KeepRepeats(t, code);
    ExcludedAll(Keep(t, NotRepeating()), Exclusions(t), code);
    FindIn(Keep(t, NotRepeating()), code);
    FindIn(t, code);
    if Excludes(code) && code !in Codes(t) {
      assert Find(t, code).None?;
    }
  }

  /** The domains taken from a site are those of its excluding categories. */
  lemma {:induction false} TakenFrom(t: Table, codes: seq<Code>, base: Code, d: Domain)
    ensures d in Taken(t, codes, base) <==>
            exists i :: 0 <= i < |codes| && Base(codes[i]) == base && d in OrEmpty(Find(t, codes[i]))
    decreases |codes|
  {
    if codes != [] {
      TakenFrom(t, codes[1..], base, d);
      if d in Taken(t, codes[1..], base) {
        var i :| 0 <= i < |codes[1..]| && Base(codes[1..][i]) == base && d in OrEmpty(Find(t, codes[1..][i]));
        assert codes[i + 1] == codes[1..][i];
      }
      if exists i :: 0 <= i < |codes| && Base(codes[i]) == base && d in OrEmpty(Find(t, codes[i])) {
        var i :| 0 <= i < |codes| && Base(codes[i]) == base && d in OrEmpty(Find(t, codes[i]));
        if i > 0 {
          assert codes[1..][i - 1] == codes[i];
        }
      }
    }
  }

  function Chosen(codes: seq<Code>, wanted: Code -> bool): seq<Code> {
    if codes == [] then []
    else (if wanted(codes[0]) then [codes[0]] else []) + Chosen(codes[1..], wanted)
  }

  lemma {:induction false} ChosenExclusions(t: Table, wanted: Code -> bool)
    ensures Exclusions(Keep(t, wanted)) == Chosen(Exclusions(t), wanted)
  {
    if t != [] {
      ChosenExclusions(t[1..], wanted);
      var rest := Exclusions(t[1..]);
      if Excludes(t[0].code) {
        assert ([t[0].code] + rest)[1..] == rest;
        assert Exclusions(t) == [t[0].code] + rest;
      } else {
        assert Exclusions(t) == rest;
      }
      if wanted(t[0].code) {
        assert ([t[0]] + Keep(t[1..], wanted))[1..] == Keep(t[1..], wanted);
      }
    }
  }

  /** A restriction that keeps a tagged category with its site. */
  ghost predicate BySite(wanted: Code -> bool) {
    forall code | Tagged(code) :: wanted(code) == wanted(Base(code))
  }

  lemma KeepExcludeOne(t: Table, wanted: Code -> bool, code: Code)
    requires Proper(t) && BySite(wanted) && Tagged(code) && code in Codes(t)
    ensures ExcludeOne(t, code).Some?
    ensures Keep(ExcludeOne(t, code).value, wanted) ==
            if wanted(code) then OrNone(ExcludeOne(Keep(t, wanted), code)) else Keep(t, wanted)
    ensures wanted(code) ==> ExcludeOne(Keep(t, wanted), code).Some?
  {
    var base := Base(code);
    FindIn(t, code);
    KeepIn(t, wanted, code);
    KeepIn(t, wanted, base);
    var left := Without(OrEmpty(Find(t, base)), Members(Find(t, code).value));
    PutProper(t, base, left);
    KeepRemove(Put(t, base, left), wanted, code);
    KeepPut(t, wanted, base, left);
    if !wanted(code) {
      KeepProper(t, wanted);
      RemoveKeeps(Keep(t, wanted), code);
      forall i | 0 <= i < |Keep(t, wanted)| ensures Keep(t, wanted)[i].code != code {
        assert Codes(Keep(t, wanted))[i] == Keep(t, wanted)[i].code;
        KeepIn(t, wanted, Keep(t, wanted)[i].code);
      }
      KeepAll(Keep(t, wanted), c => c != code);
    }
  }

  function OrNone(t: Option<Table>): Table {
    if t.Some? then t.value else []
  }

  lemma {:induction false} KeepExcludeAll(t: Table, wanted: Code -> bool, codes: seq<Code>)
    requires Proper(t) && BySite(wanted) && Listed(t, codes)
    ensures ExcludeAll(t, codes).Some?
    ensures ExcludeAll(Keep(t, wanted), Chosen(codes, wanted)) == Some(Keep(ExcludeAll(t, codes).value, wanted))
    decreases |codes|
  {
    if codes != [] {
      var code := codes[0];
      assert code in Codes(t);
      KeepExcludeOne(t, wanted, code);
      ExcludedOne(t, code, code);
      StillListed(t, codes);
      var t1 := ExcludeOne(t, code).value;
      KeepExcludeAll(t1, wanted, codes[1..]);
      if wanted(code) {
        var chosen := Chosen(codes, wanted);
        assert chosen == [code] + Chosen(codes[1..], wanted);
        assert chosen[1..] == Chosen(codes[1..], wanted);
      } else {
        assert Chosen(codes, wanted) == Chosen(codes[1..], wanted);
      }
    }
  }

  lemma KeepSwapped(t: Table, wanted: Code -> bool)
    ensures Keep(Keep(t, wanted), NotRepeating()) == Keep(Keep(t, NotRepeating()), wanted)
  {
    var plain := NotRepeating();
    KeepTwice(t, wanted, plain);
    KeepTwice(t, plain, wanted);
    KeepSame(t, c => wanted(c) && plain(c), c => plain(c) && wanted(c));
  }

  /** Restricting by site before or after the removal of tags is the same. */
  lemma FilterKeeps(t: Table, wanted: Code -> bool)
    requires Proper(t) && BySite(wanted)
    ensures FilterTags(t).Some?
    ensures FilterTags(Keep(t, wanted)) == Some(Keep(FilterTags(t).value, wanted))
  {
    ListedExclusions(t);
    KeepExcludeAll(Keep(t, NotRepeating()), wanted, Exclusions(t));
    KeepSwapped(t, wanted);
    ChosenExclusions(t, wanted);
  }

  // ---------------------------------------------------------------- the Chinese categories

  lemma {:induction false} GatheredKeeps(t: Table, wanted: Code -> bool)
    requires forall code | Chinese(code) :: wanted(code)
    ensures Gathered(Keep(t, wanted)) == Gathered(t)
  {
    if t != [] {
      GatheredKeeps(t[1..], wanted);
      if wanted(t[0].code) {
        assert ([t[0]] + Keep(t[1..], wanted))[1..] == Keep(t[1..], wanted);
      }
    }
  }

  /** The restriction holds everything the merge reads, if what the merge writes is wanted. */
  ghost predicate KeepsMerge(wanted: Code -> bool, requested: set<Code>) {
    && (forall code | code in requested :: wanted(code))
    && (CN in requested || GEOLOCATION_CN in requested ==>
          wanted(GEOLOCATION_CN) && forall code | Chinese(code) :: wanted(code))
  }

  lemma KeepWanted(t: Table, wanted: Code -> bool, requested: set<Code>)
    requires forall code | code in requested :: wanted(code)
    ensures Keep(Keep(t, wanted), Wanted(requested)) == Keep(t, Wanted(requested))
  {
    KeepTwice(t, wanted, Wanted(requested));
    KeepSame(t, c => wanted(c) && Wanted(requested)(c), Wanted(requested));
  }

  lemma MergeKeeps(t: Table, wanted: Code -> bool, requested: set<Code>)
    requires KeepsMerge(wanted, requested)
    ensures Keep(MergeChinese(Keep(t, wanted)), Wanted(requested)) == Keep(MergeChinese(t), Wanted(requested))
  {
    var kept := Keep(t, wanted);
    KeepWanted(t, wanted, requested);
    if CN in requested || GEOLOCATION_CN in requested {
      GatheredKeeps(t, wanted);
      KeepIn(t, wanted, GEOLOCATION_CN);
      assert MergedChinese(kept) == MergedChinese(t);
    }
    KeepMerged(t, requested);
    KeepMerged(kept, requested);
  }

  /** What a restriction leaves of the merge. */
  lemma KeepMerged(t: Table, requested: set<Code>)
    ensures var m := MergedChinese(t); var kept := Keep(t, Wanted(requested));
      var first := if GEOLOCATION_CN in requested then Put(kept, GEOLOCATION_CN, m) else kept;
      Keep(MergeChinese(t), Wanted(requested)) ==
      if m == [] then kept
      else if CN in requested then Put(first, CN, Unique(m + [Domain(Suffix, ".cn")])) else first
  {
    var m := MergedChinese(t);
    KeepPut(t, Wanted(requested), GEOLOCATION_CN, m);
    KeepPut(Put(t, GEOLOCATION_CN, m), Wanted(requested), CN, Unique(m + [Domain(Suffix, ".cn")]));
  }

  lemma {:induction false} CompileKeeps(t: Table, wanted: Code -> bool)
    ensures CompileAll(Keep(t, wanted)) == Keep(CompileAll(t), wanted)
  {
    if t != [] {
      CompileKeeps(t[1..], wanted);
      assert CompileAll(t)[1..] == CompileAll(t[1..]);
      if wanted(t[0].code) {
        assert CompileAll([t[0]] + Keep(t[1..], wanted)) == [CompileAll(t)[0]] + CompileAll(Keep(t[1..], wanted));
      }
    }
  }

  /** What the merge gathers: the domains of the Chinese categories. */
  lemma {:induction false} GatheredIn(t: Table, d: Domain)
    ensures d in Gathered(t) <==> exists i :: 0 <= i < |t| && Chinese(t[i].code) && d in t[i].domains
  {
    if t != [] {
      GatheredIn(t[1..], d);
      if d in Gathered(t[1..]) {
        var i :| 0 <= i < |t[1..]| && Chinese(t[1..][i].code) && d in t[1..][i].domains;
        assert t[i + 1] == t[1..][i];
      }
      if i :| 0 <= i < |t| && Chinese(t[i].code) && d in t[i].domains {
        if i > 0 { assert t[1..][i - 1] == t[i]; }
      }
    }
  }

  /** After the merge the Chinese location category holds exactly its own domains and those of the
      Chinese categories, its alias the same and the suffix of the country, each once, and every other
      category is as it was; with nothing to gather nothing changes. */
  lemma MergedIn(t: Table, code: Code, d: Domain)
    ensures var found := d in OrEmpty(Find(t, GEOLOCATION_CN))
                         || exists i :: 0 <= i < |t| && Chinese(t[i].code) && d in t[i].domains;
      var merged := MergeChinese(t);
      if MergedChinese(t) == [] then merged == t && !found
      else
        && (code == GEOLOCATION_CN ==> Find(merged, code).Some? && (d in Find(merged, code).value <==> found))
        && (code == CN ==> Find(merged, code).Some? && (d in Find(merged, code).value <==> found || d == Domain(Suffix, ".cn")))
        && (code == GEOLOCATION_CN || code == CN ==> Distinct(Find(merged, code).value))
        && (code != GEOLOCATION_CN && code != CN ==> Find(merged, code) == Find(t, code))
  {
    var m := MergedChinese(t);
    var all := OrEmpty(Find(t, GEOLOCATION_CN)) + Gathered(t);
    GatheredIn(t, d);
    UniqueIn(all, d);
    UniqueDistinct(all);
    UniqueIn(m + [Domain(Suffix, ".cn")], d);
    UniqueDistinct(m + [Domain(Suffix, ".cn")]);
    PutFind(t, GEOLOCATION_CN, m, code);
    PutFind(Put(t, GEOLOCATION_CN, m), CN, Unique(m + [Domain(Suffix, ".cn")]), code);
  }

  /** A category collects exactly the rules of its domains, and under an attribute exactly the rules of
      the domains that have it. */
  lemma {:induction false} SiteRulesIn(text: Text, domains: seq<ParsedDomain>, tag: Code, d: Domain)
    requires SiteRules(text, domains).Some?
    ensures var rules := SiteRules(text, domains).value;
      && (d in rules.0 <==> exists i :: 0 <= i < |domains| && Gives(text, domains[i], d))
      && (d in OrEmpty(Find(rules.1, tag)) <==>
            exists i :: 0 <= i < |domains| && Gives(text, domains[i], d) && HasTag(text, domains[i].attributes, tag))
    decreases |domains|
  {
    if domains != [] {
      var front, last := domains[..|domains| - 1], domains[|domains| - 1];
      SiteRulesIn(text, front, tag, d);
      AddTagsIn(text, SiteRules(text, front).value.1, last.attributes, Convert(text, last).value, tag, d);
      assert domains == front + [last];
      assert forall i | 0 <= i < |front| :: domains[i] == front[i];
      assert domains[|front|] == last;
    }
  }

  predicate Gives(text: Text, domain: ParsedDomain, d: Domain) {
    Convert(text, domain).Some? && d in Convert(text, domain).value
  }

  predicate HasTag(text: Text, attributes: seq<string>, tag: Code) {
    exists i :: 0 <= i < |attributes| && Normalize(text, attributes[i]) == Some(tag)
  }

  lemma {:induction false} AddTagsIn(text: Text, tags: Table, attributes: seq<string>, rules: seq<Domain>, tag: Code, d: Domain)
    requires AddTags(text, tags, attributes, rules).Some?
    ensures d in OrEmpty(Find(AddTags(text, tags, attributes, rules).value, tag)) <==>
            d in OrEmpty(Find(tags, tag)) || (d in rules && HasTag(text, attributes, tag))
    decreases |attributes|
  {
    if attributes != [] {
      var front, last := attributes[..|attributes| - 1], attributes[|attributes| - 1];
      AddTagsIn(text, tags, front, rules, tag, d);
      var before, name := AddTags(text, tags, front, rules).value, Normalize(text, last).value;
      PutFind(before, name, OrEmpty(Find(before, name)) + rules, tag);
      assert attributes == front + [last];
      assert forall i | 0 <= i < |front| :: attributes[i] == front[i];
      assert attributes[|front|] == last;
    }
  }

  // ---------------------------------------------------------------- requested categories

  lemma {:induction false} BeforeOrWhole(code: Code)
    ensures Before(code, '@') == code || StartsWith(code, Before(code, '@') + "@")
  {
    if code != "" && code[0] != '@' {
      BeforeOrWhole(code[1..]);
      var rest := Before(code[1..], '@');
      if rest == code[1..] {
        assert [code[0]] + code[1..] == code;
      } else {
        assert code[..|rest| + 2] == [code[0]] + code[1..][..|rest| + 1];
        assert [code[0]] + (rest + "@") == ([code[0]] + rest) + "@";
      }
    }
  }

  lemma {:induction false} StartKept(code: Code, start: string)
    requires StartsWith(code, start) && '@' !in start
    ensures StartsWith(Before(code, '@'), start)
  {
    if start != "" {
      assert code[0] == code[..|start|][0] == start[0] && start[0] in start;
      assert code[1..][..|start| - 1] == code[..|start|][1..] == start[1..];
      StartKept(code[1..], start[1..]);
      var rest := Before(code[1..], '@');
      assert Before(code, '@')[..|start|] == [code[0]] + rest[..|start| - 1] == [start[0]] + start[1..] == start;
    }
  }

  lemma SitesKeepMerge(requested: set<Code>)
    ensures KeepsMerge(OfSites(requested), requested)
  {
    forall code | code in requested ensures OfSites(requested)(code) { BeforeOrWhole(code); }
    assert Before(GEOLOCATION_CN, '@') == GEOLOCATION_CN by {
      BeforeJoined(GEOLOCATION_CN, "");
    }
    if CN in requested || GEOLOCATION_CN in requested {
      forall code | Chinese(code) ensures OfSites(requested)(code) {
        StartOfChinese(code);
      }
    }
  }

  lemma StartOfChinese(code: Code)
    requires Chinese(code)
    ensures StartsWith(Before(code, '@'), CATEGORY)
  {
    if !Tagged(code) { StartKept(code, CATEGORY); }
  }

  lemma {:induction false} BaseAgain(code: Code)
    ensures Before(Before(code, '@'), '@') == Before(code, '@')
  {
    if code != "" && code[0] != '@' {
      BaseAgain(code[1..]);
      assert ([code[0]] + Before(code[1..], '@'))[1..] == Before(code[1..], '@');
    }
  }

  lemma SitesBySite(requested: set<Code>)
    ensures BySite(OfSites(requested))
  {
    forall code | Tagged(code) ensures OfSites(requested)(code) == OfSites(requested)(Base(code)) {
      BaseAgain(code);
    }
  }

  /** What follows the assembly of the table, restricted by site first or by code last. */
  lemma FinishedKeeps(t: Table, requested: set<Code>)
    requires Proper(t) && Finished(t, None).Some?
    ensures Finished(Keep(t, OfSites(requested)), Some(requested)) ==
            Some(Keep(Finished(t, None).value, Wanted(requested)))
  {
    var wanted := OfSites(requested);
    SitesBySite(requested);
    SitesKeepMerge(requested);
    FilterKeeps(t, wanted);
    var filtered := FilterTags(t).value;
    MergeKeeps(filtered, wanted, requested);
    CompileKeeps(MergeChinese(filtered), Wanted(requested));
    CompileKeeps(MergeChinese(Keep(filtered, wanted)), Wanted(requested));
  }

  /** For every database that parses and has no '@' in a site's code, and every set of requested
      codes: parsing only what they need gives the categories of the full parse that were requested,
      with the same rules in the same order. */
  lemma RequestedIsRestricted(text: Text, b: seq<Byte>, requested: set<Code>)
    requires ParseDatabase(text, b, None).Some? && PlainCodes(text, Fields(b).value)
    ensures ParseDatabase(text, b, Some(requested)) ==
            Some(Keep(ParseDatabase(text, b, None).value, Wanted(requested)))
  {
    var fs := Fields(b).value;
    KeepAssembled(text, fs, requested);
    AssembledProper(text, fs, None);
    FinishedKeeps(Assemble(text, fs, None).value, requested);
  }

  lemma RequestedFinds(text: Text, b: seq<Byte>, requested: set<Code>, code: Code)
    requires ParseDatabase(text, b, None).Some? && PlainCodes(text, Fields(b).value)
    ensures ParseDatabase(text, b, Some(requested)).Some?
    ensures Find(ParseDatabase(text, b, Some(requested)).value, code) ==
            if code in requested then Find(ParseDatabase(text, b, None).value, code) else None
  {
    RequestedIsRestricted(text, b, requested);
    var full := ParseDatabase(text, b, None).value;
    KeepIn(full, Wanted(requested), code);
    FindIn(Keep(full, Wanted(requested)), code);
  }
}
