/** The categories of a GeoSite database as a map with an order: entries stay where they were first
    put. The removal of tags and the merge of the Chinese categories change it in place. */
module GeoSiteTable {
  import opened Options
  import opened GeoSiteRules
  import opened Strings

  type Code = string
  datatype Entry = Entry(code: Code, domains: seq<Domain>)
  type Table = seq<Entry>

  function Find(t: Table, code: Code): Option<seq<Domain>> {
    if t == [] then None else if t[0].code == code then Some(t[0].domains) else Find(t[1..], code)
  }

  function Put(t: Table, code: Code, domains: seq<Domain>): Table {
    if t == [] then [Entry(code, domains)]
    else if t[0].code == code then [Entry(code, domains)] + t[1..]
    else [t[0]] + Put(t[1..], code, domains)
  }

  function Remove(t: Table, code: Code): Table {
    if t == [] then []
    else if t[0].code == code then t[1..]
    else [t[0]] + Remove(t[1..], code)
  }

  function Codes(t: Table): seq<Code> {
    seq(|t|, i requires 0 <= i < |t| => t[i].code)
  }

  predicate Proper(t: Table) {
    forall i, k | 0 <= i < k < |t| :: t[i].code != t[k].code
  }

  /** The entries whose codes are wanted, in their order. */
  function Keep(t: Table, wanted: Code -> bool): Table {
    if t == [] then []
    else if wanted(t[0].code) then [t[0]] + Keep(t[1..], wanted)
    else Keep(t[1..], wanted)
  }

  function OrEmpty(domains: Option<seq<Domain>>): seq<Domain> {
    if domains.Some? then domains.value else []
  }

  // ---------------------------------------------------------------- the map

  lemma FindIn(t: Table, code: Code)
    ensures Find(t, code).Some? <==> code in Codes(t)
  {
    if t != [] {
      FindIn(t[1..], code);
      assert Codes(t) == [t[0].code] + Codes(t[1..]);
    }
  }

  lemma PutCodes(t: Table, code: Code, domains: seq<Domain>)
    ensures Codes(Put(t, code, domains)) == if code in Codes(t) then Codes(t) else Codes(t) + [code]
  {
    if t != [] {
      assert Codes(t) == [t[0].code] + Codes(t[1..]);
      if t[0].code != code {
        PutCodes(t[1..], code, domains);
        assert Codes(Put(t, code, domains)) == [t[0].code] + Codes(Put(t[1..], code, domains));
      } else {
        assert Codes(Put(t, code, domains)) == [code] + Codes(t[1..]);
      }
    }
  }

  lemma PutFind(t: Table, code: Code, domains: seq<Domain>, other: Code)
    ensures Find(Put(t, code, domains), other) == if other == code then Some(domains) else Find(t, other)
  {
  }

  lemma ProperCodes(t: Table, t': Table)
    requires Codes(t) == Codes(t') && Proper(t)
    ensures Proper(t')
  {
    forall i, k | 0 <= i < k < |t'| ensures t'[i].code != t'[k].code {
      assert Codes(t')[i] == t'[i].code && Codes(t')[k] == t'[k].code;
      assert Codes(t)[i] == t[i].code && Codes(t)[k] == t[k].code;
    }
  }

  lemma PutProper(t: Table, code: Code, domains: seq<Domain>)
    requires Proper(t)
    ensures Proper(Put(t, code, domains))
  {
    var t' := Put(t, code, domains);
    PutCodes(t, code, domains);
    if code in Codes(t) {
      ProperCodes(t, t');
    } else {
      forall i, k | 0 <= i < k < |t'| ensures t'[i].code != t'[k].code {
        assert Codes(t')[i] == t'[i].code && Codes(t')[k] == t'[k].code;
        assert Codes(t)[i] == t[i].code;
        if k < |t| { assert Codes(t)[k] == t[k].code; }
      }
    }
  }

  /** A removal keeps the other entries in order. */
  lemma {:induction false} RemoveKeeps(t: Table, code: Code)
    requires Proper(t)
    ensures Remove(t, code) == Keep(t, c => c != code)
  {
    if t != [] {
      if t[0].code == code {
        KeepAll(t[1..], c => c != code);
      } else {
        RemoveKeeps(t[1..], code);
      }
    }
  }

  lemma {:induction false} KeepAll(t: Table, wanted: Code -> bool)
    requires forall i | 0 <= i < |t| :: wanted(t[i].code)
    ensures Keep(t, wanted) == t
  {
    if t != [] {
      KeepAll(t[1..], wanted);
      assert t == [t[0]] + t[1..];
    }
  }

  lemma {:induction false} KeepIn(t: Table, wanted: Code -> bool, code: Code)
    ensures code in Codes(Keep(t, wanted)) <==> code in Codes(t) && wanted(code)
    ensures wanted(code) ==> Find(Keep(t, wanted), code) == Find(t, code)
  {
    if t != [] {
      KeepIn(t[1..], wanted, code);
      assert Codes(t) == [t[0].code] + Codes(t[1..]);
      assert wanted(t[0].code) ==>
             Codes([t[0]] + Keep(t[1..], wanted)) == [t[0].code] + Codes(Keep(t[1..], wanted));
      assert ([t[0]] + Keep(t[1..], wanted))[1..] == Keep(t[1..], wanted);
    }
  }

  lemma {:induction false} KeepProper(t: Table, wanted: Code -> bool)
    requires Proper(t)
    ensures Proper(Keep(t, wanted))
  {
    if t != [] {
      KeepProper(t[1..], wanted);
      var rest := Keep(t[1..], wanted);
      if wanted(t[0].code) {
        forall k | 0 <= k < |rest| ensures rest[k].code != t[0].code {
          KeepIn(t[1..], wanted, rest[k].code);
          assert Codes(rest)[k] == rest[k].code;
          var n :| 0 <= n < |t[1..]| && Codes(t[1..])[n] == rest[k].code;
          assert t[1 + n].code == rest[k].code;
        }
      }
    }
  }

  lemma {:induction false} KeepPut(t: Table, wanted: Code -> bool, code: Code, domains: seq<Domain>)
    ensures Keep(Put(t, code, domains), wanted) ==
            if wanted(code) then Put(Keep(t, wanted), code, domains) else Keep(t, wanted)
  {
    if t == [] {
    } else if t[0].code == code {
      assert Put(t, code, domains)[1..] == t[1..];
    } else {
      KeepPut(t[1..], wanted, code, domains);
      assert Put(t, code, domains)[1..] == Put(t[1..], code, domains);
      if wanted(t[0].code) {
        assert Keep(t, wanted)[1..] == Keep(t[1..], wanted);
      }
    }
  }

  lemma {:induction false} KeepTwice(t: Table, first: Code -> bool, second: Code -> bool)
    ensures Keep(Keep(t, first), second) == Keep(t, c => first(c) && second(c))
  {
    if t != [] {
      KeepTwice(t[1..], first, second);
      if first(t[0].code) {
        assert Keep(t, first)[1..] == Keep(t[1..], first);
      }
    }
  }

  lemma {:induction false} KeepSame(t: Table, first: Code -> bool, second: Code -> bool)
    requires forall i | 0 <= i < |t| :: first(t[i].code) == second(t[i].code)
    ensures Keep(t, first) == Keep(t, second)
  {
    if t != [] {
      KeepSame(t[1..], first, second);
    }
  }

  lemma KeepRemove(t: Table, wanted: Code -> bool, code: Code)
    requires Proper(t)
    ensures Keep(Remove(t, code), wanted) == Remove(Keep(t, wanted), code)
  {
    RemoveKeeps(t, code);
    KeepProper(t, wanted);
    RemoveKeeps(Keep(t, wanted), code);
    KeepTwice(t, c => c != code, wanted);
    KeepTwice(t, wanted, c => c != code);
    var not: Code -> bool := c => c != code;
    KeepSame(t, c => not(c) && wanted(c), c => wanted(c) && not(c));
    KeepTwice(t, not, wanted);
    KeepTwice(t, wanted, not);
    KeepSame(t, not, c => c != code);
    KeepSame(Keep(t, wanted), not, c => c != code);
  }

  // ---------------------------------------------------------------- codes

  function Count(code: Code, mark: char): nat {
    if code == "" then 0 else (if code[0] == mark then 1 else 0) + Count(code[1..], mark)
  }

  /** What follows the last mark. */
  function AfterLast(code: Code, mark: char): Code
    decreases |code|
  {
    if mark in code then AfterLast(After(code, mark), mark) else code
  }

  const CATEGORY := "category-"
  const GEOLOCATION_CN := "geolocation-cn"
  const CN := "cn"

  /** A code made of a site's code and an attribute. */
  predicate Tagged(code: Code) {
    Count(code, '@') == 1
  }

  function Base(code: Code): Code {
    Before(code, '@')
  }

  function LastName(base: Code): Code {
    var last := AfterLast(base, '-');
    if last == "" then base else last
  }

  /** An attribute that says no more than the name. */
  predicate Repeats(code: Code) {
    Tagged(code) && LastName(Base(code)) == After(code, '@')
  }

  function NotRepeating(): Code -> bool {
    code => !Repeats(code)
  }

  /** An attribute that marks what the site is not. */
  predicate Excludes(code: Code) {
    && Tagged(code) && !Repeats(code)
    && ("!" + LastName(Base(code)) == After(code, '@') || LastName(Base(code)) == "!" + After(code, '@'))
  }

  predicate Chinese(code: Code) {
    if Tagged(code) then
      After(code, '@') == CN && StartsWith(Base(code), CATEGORY)
      && !EndsWith(Base(code), "-cn") && !EndsWith(Base(code), "-!cn")
    else StartsWith(code, CATEGORY) && EndsWith(code, "-cn")
  }

  // ---------------------------------------------------------------- the removal of tags

  function Without(domains: seq<Domain>, blocked: set<Domain>): seq<Domain> {
    if domains == [] then []
    else
      var before, last := Without(domains[..|domains| - 1], blocked), domains[|domains| - 1];
      if last in blocked then before else before + [last]
  }

  function Members(domains: seq<Domain>): set<Domain> {
    set d | d in domains
  }

  /** One exclusion leaves the site without the domains of the tagged category, and drops that
      category. It fails if there is no such category. */
  function ExcludeOne(t: Table, code: Code): Option<Table> {
    var excluded := Find(t, code);
    if excluded.None? then None
    else
      var left := Without(OrEmpty(Find(t, Base(code))), Members(excluded.value));
      Some(Remove(Put(t, Base(code), left), code))
  }

  function ExcludeAll(t: Table, codes: seq<Code>): Option<Table>
    decreases |codes|
  {
    if codes == [] then Some(t)
    else
      var next := ExcludeOne(t, codes[0]);
      if next.None? then None else ExcludeAll(next.value, codes[1..])
  }

  function Exclusions(t: Table): seq<Code> {
    if t == [] then []
    else (if Excludes(t[0].code) then [t[0].code] else []) + Exclusions(t[1..])
  }

  function FilterTags(t: Table): Option<Table> {
    ExcludeAll(Keep(t, NotRepeating()), Exclusions(t))
  }

  // ---------------------------------------------------------------- the Chinese categories

  function Gathered(t: Table): seq<Domain> {
    if t == [] then []
    else (if Chinese(t[0].code) then t[0].domains else []) + Gathered(t[1..])
  }

  function MergedChinese(t: Table): seq<Domain> {
    Unique(OrEmpty(Find(t, GEOLOCATION_CN)) + Gathered(t))
  }

  function MergeChinese(t: Table): Table {
    var merged := MergedChinese(t);
    if merged == [] then t
    else Put(Put(t, GEOLOCATION_CN, merged), CN, Unique(merged + [Domain(Suffix, ".cn")]))
  }

  function CompileAll(t: Table): Table {
    seq(|t|, i requires 0 <= i < |t| => Entry(t[i].code, Compile(t[i].domains)))
  }

  // ---------------------------------------------------------------- exclusions are always found

  lemma {:induction false} BaseHasNoMark(code: Code)
    ensures Count(Base(code), '@') == 0 && !Tagged(Base(code))
  {
    if code != "" && code[0] != '@' {
      BaseHasNoMark(code[1..]);
    }
  }

  predicate DifferentCodes(codes: seq<Code>) {
    forall i, k | 0 <= i < k < |codes| :: codes[i] != codes[k]
  }

  lemma {:induction false} ExclusionsIn(t: Table, code: Code)
    ensures code in Exclusions(t) <==> code in Codes(t) && Excludes(code)
  {
    if t != [] {
      ExclusionsIn(t[1..], code);
      assert Codes(t) == [t[0].code] + Codes(t[1..]);
    }
  }

  lemma {:induction false} ExclusionsDifferent(t: Table)
    requires Proper(t)
    ensures DifferentCodes(Exclusions(t))
  {
    if t != [] {
      ExclusionsDifferent(t[1..]);
      ExclusionsIn(t[1..], t[0].code);
    }
  }

  /** What one exclusion does to every other category. */
  lemma ExcludedOne(t: Table, code: Code, other: Code)
    requires Proper(t) && Tagged(code) && code in Codes(t)
    ensures var t' := ExcludeOne(t, code);
      && t'.Some? && Proper(t'.value)
      && Find(t'.value, other) ==
         if other == code then None
         else if other == Base(code)
         then Some(Without(OrEmpty(Find(t, other)), Members(Find(t, code).value)))
         else Find(t, other)
  {
    FindIn(t, code);
    BaseHasNoMark(code);
    var left := Without(OrEmpty(Find(t, Base(code))), Members(Find(t, code).value));
    var put := Put(t, Base(code), left);
    PutFind(t, Base(code), left, other);
    PutProper(t, Base(code), left);
    RemoveKeeps(put, code);
    KeepProper(put, c => c != code);
    KeepIn(put, c => c != code, other);
    FindIn(Remove(put, code), other);
  }

  /** The domains some of the exclusions take from a site. */
  function Taken(t: Table, codes: seq<Code>, base: Code): set<Domain> {
    if codes == [] then {}
    else (if Base(codes[0]) == base then Members(OrEmpty(Find(t, codes[0]))) else {}) + Taken(t, codes[1..], base)
  }

  lemma WithoutBoth(domains: seq<Domain>, a: set<Domain>, b: set<Domain>)
    ensures Without(Without(domains, a), b) == Without(domains, a + b)
  {
    if domains != [] {
      WithoutBoth(domains[..|domains| - 1], a, b);
      var before, last := Without(domains[..|domains| - 1], a), domains[|domains| - 1];
      if last !in a {
        assert (before + [last])[..|before + [last]| - 1] == before;
      }
    }
  }

  lemma WithoutNone(domains: seq<Domain>)
    ensures Without(domains, {}) == domains
  {
    if domains != [] {
      WithoutNone(domains[..|domains| - 1]);
      assert domains == domains[..|domains| - 1] + [domains[|domains| - 1]];
    }
  }

  lemma {:induction false} TakenSame(t: Table, t': Table, codes: seq<Code>, base: Code)
    requires forall i | 0 <= i < |codes| :: Find(t', codes[i]) == Find(t, codes[i])
    ensures Taken(t', codes, base) == Taken(t, codes, base)
  {
    if codes != [] {
      assert forall i | 0 <= i < |codes[1..]| :: codes[1..][i] == codes[i + 1];
      TakenSame(t, t', codes[1..], base);
    }
  }

  ghost predicate Listed(t: Table, codes: seq<Code>) {
    && DifferentCodes(codes)
    && forall i | 0 <= i < |codes| :: Tagged(codes[i]) && codes[i] in Codes(t)
  }

  /** A list of different tagged categories of the table never fails, and tells for every category
      what is left of it. */
  lemma {:induction false} ExcludedAll(t: Table, codes: seq<Code>, other: Code)
    requires Proper(t) && Listed(t, codes)
    ensures var t' := ExcludeAll(t, codes);
      && t'.Some? && Proper(t'.value)
      && (other in codes ==> Find(t'.value, other).None?)
      && (other !in codes && !Tagged(other) && other in Codes(t) ==>
            Find(t'.value, other) == Some(Without(OrEmpty(Find(t, other)), Taken(t, codes, other))))
      && (other !in codes && Tagged(other) ==> Find(t'.value, other) == Find(t, other))
    decreases |codes|
  {
    FindIn(t, other);
    if codes == [] {
      if Find(t, other).Some? { WithoutNone(Find(t, other).value); }
    } else {
      var code, rest := codes[0], codes[1..];
      assert code in Codes(t);
      ExcludedOne(t, code, other);
      BaseHasNoMark(code);
      var t1 := ExcludeOne(t, code).value;
      StillListed(t, codes);
      ExcludedAll(t1, rest, other);
      FindIn(t1, other);
      forall i | 0 <= i < |rest| ensures Find(t1, rest[i]) == Find(t, rest[i]) {
        assert rest[i] == codes[i + 1];
        ExcludedOne(t, code, rest[i]);
      }
      TakenSame(t, t1, rest, other);
      if Find(t, other).Some? && other == Base(code) {
        WithoutBoth(Find(t, other).value, Members(Find(t, code).value), Taken(t, rest, other));
      } else {
        assert {} + Taken(t, rest, other) == Taken(t, rest, other);
      }
    }
  }

  lemma StillListed(t: Table, codes: seq<Code>)
    requires Proper(t) && Listed(t, codes) && codes != [] && ExcludeOne(t, codes[0]).Some?
    ensures Listed(ExcludeOne(t, codes[0]).value, codes[1..])
  {
    var rest, t1 := codes[1..], ExcludeOne(t, codes[0]).value;
    assert codes[0] in Codes(t);
    BaseHasNoMark(codes[0]);
    forall i | 0 <= i < |rest| ensures Tagged(rest[i]) && rest[i] in Codes(t1) {
      assert rest[i] == codes[i + 1];
      ExcludedOne(t, codes[0], rest[i]);
      FindIn(t, rest[i]);
      FindIn(t1, rest[i]);
    }
  }
}
