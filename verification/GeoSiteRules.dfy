/** The domain rules of a GeoSite category: conversion, removal of duplicates, and the compaction
    that drops exact domains a suffix covers. */
module GeoSiteRules {
  import opened Options
  import opened GeoSiteMessages
  import opened Strings

  datatype Matcher = Exact | Suffix | Keyword | Pattern
  datatype Domain = Domain(matcher: Matcher, value: string)

  /** Trimmed values that are not empty and have no line break or null character. */
  predicate CleanValue(value: string) {
    value != "" && forall c | c in value :: c != '\0' && c != '\r' && c != '\n'
  }

  function Convert(text: Text, d: ParsedDomain): Option<seq<Domain>> {
    var value := text.trim(d.value);
    if !CleanValue(value) then None
    else if d.kind == 0 then Some([Domain(Keyword, value)])
    else if d.kind == 1 then Some([Domain(Pattern, value)])
    else if d.kind == 2 then
      Some((if '.' in value then [Domain(Exact, value)] else []) + [Domain(Suffix, "." + value)])
    else if d.kind == 3 then Some([Domain(Exact, value)])
    else None
  }

  // ---------------------------------------------------------------- without duplicates

  /** Each value where it first occurs. */
  function Unique(values: seq<Domain>): seq<Domain> {
    if values == [] then []
    else
      var before, last := Unique(values[..|values| - 1]), values[|values| - 1];
      if last in values[..|values| - 1] then before else before + [last]
  }

  predicate Distinct(values: seq<Domain>) {
    forall i, k | 0 <= i < k < |values| :: values[i] != values[k]
  }

  lemma SnocIn(values: seq<Domain>, d: Domain)
    requires values != []
    ensures d in values <==> d in values[..|values| - 1] || d == values[|values| - 1]
  {
    assert values == values[..|values| - 1] + [values[|values| - 1]];
  }

  lemma {:induction false} UniqueIn(values: seq<Domain>, d: Domain)
    ensures d in Unique(values) <==> d in values
    decreases |values|
  {
    if values != [] {
      UniqueIn(values[..|values| - 1], d);
      SnocIn(values, d);
    }
  }

  lemma {:induction false} UniqueDistinct(values: seq<Domain>)
    ensures Distinct(Unique(values))
    decreases |values|
  {
    if values != [] {
      UniqueDistinct(values[..|values| - 1]);
      UniqueIn(values[..|values| - 1], values[|values| - 1]);
    }
  }

  lemma {:induction false} UniqueOfDistinct(values: seq<Domain>)
    requires Distinct(values)
    ensures Unique(values) == values
    decreases |values|
  {
    if values != [] {
      UniqueOfDistinct(values[..|values| - 1]);
      assert values == values[..|values| - 1] + [values[|values| - 1]];
    }
  }

  /** Values stay in the order in which they first occur. */
  lemma {:induction false} UniqueOrder(values: seq<Domain>, i: nat, k: nat) returns (a: nat, b: nat)
    requires i < k < |Unique(values)|
    ensures a < b < |values| && values[a] == Unique(values)[i] && values[b] == Unique(values)[k]
    ensures values[a] !in values[..a] && values[b] !in values[..b]
    decreases |values|
  {
    var last := |values| - 1;
    var before := Unique(values[..last]);
    if k < |before| {
      a, b := UniqueOrder(values[..last], i, k);
      assert values[..last][..a] == values[..a] && values[..last][..b] == values[..b];
    } else {
      b := last;
      a := FirstOf(values[..last], i);
      assert values[..last][..a] == values[..a];
    }
  }

  lemma {:induction false} FirstOf(values: seq<Domain>, i: nat) returns (a: nat)
    requires i < |Unique(values)|
    ensures a < |values| && values[a] == Unique(values)[i] && values[a] !in values[..a]
    decreases |values|
  {
    var last := |values| - 1;
    if i < |Unique(values[..last])| {
      a := FirstOf(values[..last], i);
      assert values[..last][..a] == values[..a];
    } else {
      a := last;
    }
  }

  method KeepFirst(values: seq<Domain>) returns (r: seq<Domain>)
    ensures r == Unique(values)
  {
    var seen: set<Domain> := {};
    r := [];
    for n := 0 to |values|
      invariant r == Unique(values[..n])
      invariant forall d :: d in seen <==> d in values[..n]
    {
      assert values[..n + 1][..n] == values[..n];
      SnocAll(values, n);
      if values[n] !in seen {
        seen := seen + {values[n]};
        r := r + [values[n]];
      }
    }
    assert values[..|values|] == values;
  }

  lemma SnocAll(values: seq<Domain>, n: nat)
    requires n < |values|
    ensures forall d :: d in values[..n + 1] <==> d in values[..n] || d == values[n]
  {
    assert values[..n + 1] == values[..n] + [values[n]];
  }

  // ---------------------------------------------------------------- compaction

  /** A suffix without its leading dot. */
  function Stripped(value: string): string {
    if value != "" && value[0] == '.' then value[1..] else value
  }

  function Suffixes(values: seq<Domain>): set<string> {
    set d | d in values && d.matcher.Suffix? :: Stripped(d.value)
  }

  predicate Covered(suffixes: set<string>, d: Domain) {
    d.matcher.Exact? && d.value in suffixes
  }

  function Uncovered(values: seq<Domain>, suffixes: set<string>): seq<Domain> {
    if values == [] then []
    else
      var before, last := Uncovered(values[..|values| - 1], suffixes), values[|values| - 1];
      if Covered(suffixes, last) then before else before + [last]
  }

  function Compile(values: seq<Domain>): seq<Domain> {
    Uncovered(Unique(values), Suffixes(Unique(values)))
  }

  method CompileRules(values: seq<Domain>) returns (r: seq<Domain>)
    ensures r == Compile(values)
  {
    var domains := KeepFirst(values);
    var suffixes: set<string> := {};
    for n := 0 to |domains|
      invariant suffixes == Suffixes(domains[..n])
    {
      SnocAll(domains, n);
      if domains[n].matcher.Suffix? {
        suffixes := suffixes + {Stripped(domains[n].value)};
      }
      SuffixesPush(domains, n);
    }
    assert domains[..|domains|] == domains;
    r := [];
    for n := 0 to |domains|
      invariant r == Uncovered(domains[..n], suffixes)
    {
      assert domains[..n + 1][..n] == domains[..n];
      if !domains[n].matcher.Exact? || domains[n].value !in suffixes {
        r := r + [domains[n]];
      }
    }
  }

  lemma SuffixesPush(domains: seq<Domain>, n: nat)
    requires n < |domains|
    ensures Suffixes(domains[..n + 1]) ==
            Suffixes(domains[..n]) + (if domains[n].matcher.Suffix? then {Stripped(domains[n].value)} else {})
  {
    SnocAll(domains, n);
  }

  lemma {:induction false} UncoveredIn(values: seq<Domain>, suffixes: set<string>, d: Domain)
    ensures d in Uncovered(values, suffixes) <==> d in values && !Covered(suffixes, d)
    decreases |values|
  {
    if values != [] {
      UncoveredIn(values[..|values| - 1], suffixes, d);
      SnocIn(values, d);
    }
  }

  lemma SameSuffixes(values: seq<Domain>, values': seq<Domain>)
    requires forall d: Domain | d.matcher.Suffix? :: d in values' <==> d in values
    ensures Suffixes(values') == Suffixes(values)
  {
  }

  /** What is left: everything but the exact domains equal to some suffix without its dot. */
  lemma CompileIn(values: seq<Domain>, d: Domain)
    ensures d in Compile(values) <==> d in values && !Covered(Suffixes(values), d)
  {
    forall x ensures x in Unique(values) <==> x in values { UniqueIn(values, x); }
    SameSuffixes(values, Unique(values));
    UncoveredIn(Unique(values), Suffixes(Unique(values)), d);
  }

  lemma CompileSuffixes(values: seq<Domain>)
    ensures Suffixes(Compile(values)) == Suffixes(values)
  {
    forall d: Domain | d.matcher.Suffix? ensures d in Compile(values) <==> d in values {
      CompileIn(values, d);
    }
    SameSuffixes(values, Compile(values));
  }

  lemma {:induction false} UncoveredDistinct(values: seq<Domain>, suffixes: set<string>)
    requires Distinct(values)
    ensures Distinct(Uncovered(values, suffixes))
    decreases |values|
  {
    if values != [] {
      var last := |values| - 1;
      UncoveredDistinct(values[..last], suffixes);
      UncoveredIn(values[..last], suffixes, values[last]);
    }
  }

  lemma {:induction false} UncoveredAgain(values: seq<Domain>, suffixes: set<string>)
    requires forall d | d in values :: !Covered(suffixes, d)
    ensures Uncovered(values, suffixes) == values
    decreases |values|
  {
    if values != [] {
      var last := |values| - 1;
      assert values[last] in values;
      forall d | d in values[..last] ensures !Covered(suffixes, d) { SnocIn(values, d); }
      UncoveredAgain(values[..last], suffixes);
      assert values == values[..last] + [values[last]];
    }
  }

  /** Compacting twice is compacting once. */
  lemma CompileIdempotent(values: seq<Domain>)
    ensures Compile(Compile(values)) == Compile(values)
  {
    var once := Compile(values);
    UniqueDistinct(values);
    UncoveredDistinct(Unique(values), Suffixes(Unique(values)));
    UniqueOfDistinct(once);
    CompileSuffixes(values);
    forall d | d in once ensures !Covered(Suffixes(once), d) { CompileIn(values, d); }
    UncoveredAgain(once, Suffixes(once));
  }

  // ---------------------------------------------------------------- what rules match

  /** Keyword and pattern matching belong to the clients. */
  datatype Client = Client(keyword: (string, string) -> bool, pattern: (string, string) -> bool)

  /** A suffix matches its domain and every domain below it. */
  predicate Matches(client: Client, d: Domain, host: string) {
    match d.matcher
    case Exact => host == d.value
    case Suffix => host == Stripped(d.value) || EndsWith(host, "." + Stripped(d.value))
    case Keyword => client.keyword(d.value, host)
    case Pattern => client.pattern(d.value, host)
  }

  ghost predicate Matched(client: Client, values: seq<Domain>, host: string) {
    exists d :: d in values && Matches(client, d, host)
  }

  /** Compaction changes no host's outcome. */
  lemma CompileKeepsHosts(client: Client, values: seq<Domain>, host: string)
    ensures Matched(client, Compile(values), host) <==> Matched(client, values, host)
  {
    if Matched(client, values, host) {
      var d :| d in values && Matches(client, d, host);
      CompileIn(values, d);
      if Covered(Suffixes(values), d) {
        var suffix :| suffix in values && suffix.matcher.Suffix? && Stripped(suffix.value) == d.value;
        CompileIn(values, suffix);
        assert Matches(client, suffix, host);
      }
    }
    if Matched(client, Compile(values), host) {
      var d :| d in Compile(values) && Matches(client, d, host);
      CompileIn(values, d);
    }
  }

  /** What the rules of a domain match: keyword and pattern as they are, a root domain itself and
      everything below it, a full domain itself alone. */
  lemma ConvertedHosts(text: Text, client: Client, d: ParsedDomain, host: string)
    requires Convert(text, d).Some?
    ensures var value := text.trim(d.value);
      Matched(client, Convert(text, d).value, host) <==>
      match d.kind
      case 0 => client.keyword(value, host)
      case 1 => client.pattern(value, host)
      case 2 => host == value || EndsWith(host, "." + value)
      case _ => host == value
  {
    var value, rules := text.trim(d.value), Convert(text, d).value;
    assert ("." + value)[1..] == value;
    assert rules[|rules| - 1] in rules;
    if Matched(client, rules, host) {
      var rule :| rule in rules && Matches(client, rule, host);
      assert rule == rules[0] || rule == rules[|rules| - 1];
    }
    if Matches(client, rules[|rules| - 1], host) {
      assert Matched(client, rules, host);
    }
  }
}
