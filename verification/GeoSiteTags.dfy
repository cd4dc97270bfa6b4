/** Which tagged categories are removed, what they take from the category they belong to, and which are
    merged as Chinese, told of the names themselves. */
module GeoSiteTags {
  import opened Options
  import opened Strings
  import opened GeoSiteRules
  import opened GeoSiteTable
  import opened GeoSiteDatabase
  import A = GeoSiteAgreement
  import I = GeoSiteIndex
  import P = GeoSiteParser

  /** The name a category ends in: what follows its last dash, or all of it when it has no dash or ends
      with one. */
  ghost predicate EndsInName(c: Code, n: string) {
    && '@' !in c
    && if n != "" && '-' !in n then c == n || Ends(c, "-" + n)
       else c == n && (c == "" || Ends(c, "-"))
  }

  ghost predicate Begins(c: Code, start: string) {
    exists rest :: c == start + rest
  }

  ghost predicate Ends(c: Code, end: string) {
    exists front :: c == front + end
  }

  /** The tag says the opposite of the name. */
  predicate Opposite(n: string, a: string) {
    a == "!" + n || n == "!" + a
  }

  // ---------------------------------------------------------------- reading codes

  lemma {:induction false} NoDash(s: string)
    requires '-' !in s
    ensures AfterLast(s, '-') == s
  {
  }

  lemma {:induction false} LastDash(p: string, n: string)
    requires '-' !in n
    ensures AfterLast(p + "-" + n, '-') == n
    decreases |p|
  {
    var s := p + "-" + n;
    assert s[|p|] == '-';
    if '-' in p {
      var q := After(p, '-');
      CutAt(p, '-');
      assert s == Before(p, '-') + "-" + (q + "-" + n);
      CutBack(Before(p, '-'), '-', q + "-" + n);
      LastDash(q, n);
    } else {
      CutBack(p, '-', n);
      NoDash(n);
    }
  }

  lemma NameIs(c: Code, n: string)
    requires EndsInName(c, n)
    ensures LastName(c) == n
  {
    if n != "" && '-' !in n {
      if c == n {
        NoDash(n);
      } else {
        var p :| c == p + ("-" + n);
        assert c == p + "-" + n;
        LastDash(p, n);
      }
    } else if c != "" {
      var p :| c == p + "-";
      assert c == p + "-" + "";
      LastDash(p, "");
    }
  }

  lemma {:induction false} LastPart(s: string) returns (p: string)
    ensures '-' !in AfterLast(s, '-')
    ensures '-' in s ==> s == p + "-" + AfterLast(s, '-')
    decreases |s|
  {
    p := "";
    if '-' in s {
      CutAt(s, '-');
      var q := LastPart(After(s, '-'));
      if '-' in After(s, '-') {
        p := Before(s, '-') + "-" + q;
        assert s == p + "-" + AfterLast(s, '-');
      } else {
        p := Before(s, '-');
        NoDash(After(s, '-'));
      }
    }
  }

  /** Every category without a mark ends in one name. */
  lemma EveryName(c: Code)
    requires '@' !in c
    ensures forall n :: EndsInName(c, n) <==> n == LastName(c)
  {
    var last := AfterLast(c, '-');
    var p := LastPart(c);
    if '-' in c {
      if last != "" { assert c == p + ("-" + last); } else { assert c == p + "-"; }
    } else {
      NoDash(c);
    }
    forall n | EndsInName(c, n) ensures n == LastName(c) { NameIs(c, n); }
  }

  lemma {:induction false} CountNone(s: string, mark: char)
    ensures Count(s, mark) == 0 <==> mark !in s
  {
    if s != "" { CountNone(s[1..], mark); }
  }

  lemma {:induction false} CountBoth(s: string, r: string, mark: char)
    ensures Count(s + r, mark) == Count(s, mark) + Count(r, mark)
  {
    if s == "" {
      assert s + r == r;
    } else {
      assert (s + r)[1..] == s[1..] + r;
      CountBoth(s[1..], r, mark);
    }
  }

  lemma TagIs(c: Code, a: string)
    requires '@' !in c
    ensures Tagged(c + "@" + a) <==> '@' !in a
    ensures Base(c + "@" + a) == c && After(c + "@" + a, '@') == a
  {
    CutBack(c, '@', a);
    CountBoth(c + "@", a, '@');
    CountBoth(c, "@", '@');
    CountNone(c, '@');
    CountNone(a, '@');
    assert Count("@", '@') == 1;
  }

  lemma TagMeans(c: Code, n: string, a: string)
    requires EndsInName(c, n) && '@' !in a
    ensures var code := c + "@" + a; (
      && Tagged(code) && Base(code) == c
      && (Repeats(code) <==> a == n) && (Excludes(code) <==> Opposite(n, a)))
  {
    NameIs(c, n);
    TagIs(c, a);
    assert |"!" + n| == |n| + 1 && |"!" + a| == |a| + 1;
  }

  lemma Untagged(c: Code)
    ensures '@' !in c ==> !Tagged(c) && Base(c) == c
    ensures Tagged(c) ==> '@' !in Base(c) && '@' !in After(c, '@') && c == Base(c) + "@" + After(c, '@')
  {
    CountNone(c, '@');
    if '@' in c {
      CutAt(c, '@');
      TagIs(Base(c), After(c, '@'));
      assert [ '@' ] == "@";
    } else {
      NoMarkBefore(c);
    }
  }

  lemma {:induction false} NoMarkBefore(c: Code)
    requires '@' !in c
    ensures Base(c) == c
  {
    if c != "" { NoMarkBefore(c[1..]); }
  }

  // ---------------------------------------------------------------- what becomes of a tag

  /** Of the categories tagged with one name, the one that repeats the last name of its category goes,
      and so do those that say the opposite; every other stays as it is. */
  lemma TagGone(t: Table, c: Code, n: string, a: string)
    requires Proper(t) && EndsInName(c, n) && '@' !in a
    ensures FilterTags(t).Some?
    ensures Find(FilterTags(t).value, c + "@" + a) == if a == n || Opposite(n, a) then None else Find(t, c + "@" + a)
  {
    A.TagsFiltered(t, c + "@" + a);
    TagMeans(c, n, a);
  }

  /** What a category loses: the rules of its tags that say the opposite of its last name. */
  ghost predicate Loses(t: Table, c: Code, n: string, d: Domain) {
    exists a :: '@' !in a && a != n && Opposite(n, a) && d in OrEmpty(Find(t, c + "@" + a))
  }

  lemma LosesIn(t: Table, c: Code, n: string, d: Domain)
    requires EndsInName(c, n)
    ensures Loses(t, c, n, d) <==> d in Taken(Keep(t, NotRepeating()), Exclusions(t), c)
  {
    var kept, codes := Keep(t, NotRepeating()), Exclusions(t);
    A.TakenFrom(kept, codes, c, d);
    if Loses(t, c, n, d) {
      var a :| '@' !in a && a != n && Opposite(n, a) && d in OrEmpty(Find(t, c + "@" + a));
      var code := c + "@" + a;
      TagMeans(c, n, a);
      FindIn(t, code);
      ExclusionsIn(t, code);
      A.KeepRepeats(t, code);
      var i :| 0 <= i < |codes| && codes[i] == code;
    }
    if d in Taken(kept, codes, c) {
      var i :| 0 <= i < |codes| && Base(codes[i]) == c && d in OrEmpty(Find(kept, codes[i]));
      var code := codes[i];
      assert code in codes;
      ExclusionsIn(t, code);
      A.KeepRepeats(t, code);
      Untagged(code);
      TagMeans(c, n, After(code, '@'));
      assert d in OrEmpty(Find(t, c + "@" + After(code, '@')));
    }
  }

  lemma {:induction false} WithoutIn(domains: seq<Domain>, blocked: set<Domain>, d: Domain)
    ensures d in Without(domains, blocked) <==> d in domains && d !in blocked
    decreases |domains|
  {
    if domains != [] {
      WithoutIn(domains[..|domains| - 1], blocked, d);
      assert domains == domains[..|domains| - 1] + [domains[|domains| - 1]];
    }
  }

  lemma {:induction false} WithoutOrder(domains: seq<Domain>, blocked: set<Domain>, i: nat, k: nat) returns (a: nat, b: nat)
    requires i < k < |Without(domains, blocked)|
    ensures a < b < |domains| && domains[a] == Without(domains, blocked)[i] && domains[b] == Without(domains, blocked)[k]
    decreases |domains|
  {
    var front := domains[..|domains| - 1];
    var before := Without(front, blocked);
    if k < |before| {
      a, b := WithoutOrder(front, blocked, i, k);
    } else {
      WithoutIn(front, blocked, before[i]);
      a :| 0 <= a < |front| && front[a] == before[i];
      b := |domains| - 1;
    }
  }

  /** One rule stands in a list somewhere before another. */
  ghost predicate Stands(rules: seq<Domain>, x: Domain, y: Domain) {
    exists a, b :: 0 <= a < b < |rules| && rules[a] == x && rules[b] == y
  }

  /** A category that is there stays, without the rules of its tags that say the opposite of its last
      name, and its other rules keep their order. */
  lemma CategoryLoses(t: Table, c: Code, n: string)
    requires Proper(t) && EndsInName(c, n) && c in Codes(t)
    ensures FilterTags(t).Some? && Find(t, c).Some? && Find(FilterTags(t).value, c).Some?
    ensures var rules, left := Find(t, c).value, Find(FilterTags(t).value, c).value; (
      && (forall d :: d in left <==> d in rules && !Loses(t, c, n, d))
      && (forall i, k | 0 <= i < k < |left| :: Stands(rules, left[i], left[k])))
  {
    Untagged(c);
    A.TagsFiltered(t, c);
    FindIn(t, c);
    var rules, blocked := Find(t, c).value, Taken(Keep(t, NotRepeating()), Exclusions(t), c);
    var left := Without(rules, blocked);
    forall d ensures d in left <==> d in rules && !Loses(t, c, n, d) {
      WithoutIn(rules, blocked, d);
      LosesIn(t, c, n, d);
    }
    forall i, k | 0 <= i < k < |left| ensures Stands(rules, left[i], left[k]) {
      var a, b := WithoutOrder(rules, blocked, i, k);
    }
  }

  /** The list of codes loses the same tags, and nothing else. */
  lemma CodeGone(codes: set<Code>, c: Code, n: string, a: string)
    requires EndsInName(c, n) && '@' !in a
    ensures c + "@" + a in FilterCodes(codes) <==> c + "@" + a in codes && a != n && !Opposite(n, a)
    ensures c in FilterCodes(codes) <==> c in codes
  {
    TagMeans(c, n, a);
    Untagged(c);
  }

  /** A code with more than one mark is not a tag: both leave it as it is. */
  lemma ManyMarks(t: Table, codes: set<Code>, c: Code, a: string)
    requires Proper(t) && '@' !in c && '@' in a
    ensures FilterTags(t).Some? && Find(FilterTags(t).value, c + "@" + a) == Find(t, c + "@" + a)
    ensures c + "@" + a in FilterCodes(codes) <==> c + "@" + a in codes
  {
    var code := c + "@" + a;
    TagIs(c, a);
    A.ListedExclusions(t);
    var kept, exclusions := Keep(t, NotRepeating()), Exclusions(t);
    A.KeepRepeats(t, code);
    ExclusionsIn(t, code);
    forall i | 0 <= i < |exclusions| ensures Base(exclusions[i]) != code {
      BaseHasNoMark(exclusions[i]);
      CountNone(Base(exclusions[i]), '@');
      assert code[|c|] == '@';
    }
    I.NotExcluded(kept, exclusions, code);
  }

  // ---------------------------------------------------------------- the Chinese categories

  /** A category whose tag `cn` makes it Chinese: named `category-…`, but not `…-cn` or `…-!cn`. */
  ghost predicate CategoryTagged(c: Code) {
    Begins(c, "category-") && !Ends(c, "-cn") && !Ends(c, "-!cn")
  }

  /** A category named `category-…-cn`, or one tagged `cn` as above. */
  ghost predicate FromChina(code: Code) {
    || (&& (forall c, a | '@' !in c && '@' !in a :: code != c + "@" + a)
        && Begins(code, "category-") && Ends(code, "-cn"))
    || (exists c :: '@' !in c && code == c + "@cn" && CategoryTagged(c))
  }

  lemma BeginsExact(c: Code, start: string)
    ensures Begins(c, start) <==> StartsWith(c, start)
  {
    if StartsWith(c, start) { assert c == start + c[|start|..]; }
  }

  lemma EndsExact(c: Code, end: string)
    ensures Ends(c, end) <==> EndsWith(c, end)
  {
    if EndsWith(c, end) { assert c == c[..|c| - |end|] + end; }
  }

  lemma TaggedChinese(c: Code, a: string)
    requires '@' !in c && '@' !in a
    ensures Chinese(c + "@" + a) <==> a == "cn" && CategoryTagged(c)
  {
    TagIs(c, a);
    BeginsExact(c, "category-");
    EndsExact(c, "-cn");
    EndsExact(c, "-!cn");
  }

  lemma TaggedFromChina(c: Code, a: string)
    requires '@' !in c && '@' !in a
    ensures FromChina(c + "@" + a) <==> a == "cn" && CategoryTagged(c)
  {
    var code := c + "@" + a;
    assert c + "@" + "cn" == c + "@cn";
    if d :| '@' !in d && code == d + "@cn" && CategoryTagged(d) {
      assert code == d + "@" + "cn";
      TagIs(d, "cn");
      TagIs(c, a);
    }
  }

  lemma UntaggedChinese(code: Code)
    requires !Tagged(code)
    ensures Chinese(code) <==> Begins(code, "category-") && Ends(code, "-cn")
    ensures FromChina(code) <==> Begins(code, "category-") && Ends(code, "-cn")
  {
    BeginsExact(code, "category-");
    EndsExact(code, "-cn");
    forall c, a | '@' !in c && '@' !in a ensures code != c + "@" + a {
      TagIs(c, a);
    }
    forall c | '@' !in c ensures code != c + "@cn" {
      assert c + "@" + "cn" == c + "@cn";
      TagIs(c, "cn");
    }
  }

  lemma ChineseExact(code: Code)
    ensures Chinese(code) <==> FromChina(code)
  {
    if Tagged(code) {
      Untagged(code);
      TaggedChinese(Base(code), After(code, '@'));
      TaggedFromChina(Base(code), After(code, '@'));
    } else {
      UntaggedChinese(code);
    }
  }

  /** A rule of `geolocation-cn` or of a Chinese category. */
  ghost predicate Gathers(t: Table, d: Domain) {
    || d in OrEmpty(Find(t, "geolocation-cn"))
    || exists i :: 0 <= i < |t| && FromChina(t[i].code) && d in t[i].domains
  }

  lemma GathersIn(t: Table, d: Domain)
    ensures Gathers(t, d) <==> d in MergedChinese(t)
  {
    forall i | 0 <= i < |t| ensures Chinese(t[i].code) <==> FromChina(t[i].code) {
      ChineseExact(t[i].code);
    }
    UniqueIn(OrEmpty(Find(t, GEOLOCATION_CN)) + Gathered(t), d);
    A.GatheredIn(t, d);
  }

  /** If there is any such rule, `geolocation-cn` holds exactly these afterwards, and `cn` these and the
      suffix `.cn`; if there is none nothing changes, and no other category ever does. */
  lemma ChinaMerged(t: Table, code: Code, d: Domain)
    ensures (forall e :: !Gathers(t, e)) ==> MergeChinese(t) == t
    ensures (exists e :: Gathers(t, e)) ==>
      && Find(MergeChinese(t), "geolocation-cn").Some? && Find(MergeChinese(t), "cn").Some?
      && (d in Find(MergeChinese(t), "geolocation-cn").value <==> Gathers(t, d))
      && (d in Find(MergeChinese(t), "cn").value <==> Gathers(t, d) || d == Domain(Suffix, ".cn"))
    ensures code != "geolocation-cn" && code != "cn" ==> Find(MergeChinese(t), code) == Find(t, code)
  {
    var merged := MergedChinese(t);
    GathersIn(t, d);
    if merged == [] {
      forall e ensures !Gathers(t, e) { GathersIn(t, e); }
    } else {
      GathersIn(t, merged[0]);
      var first := Put(t, GEOLOCATION_CN, merged);
      var whole := Unique(merged + [Domain(Suffix, ".cn")]);
      UniqueIn(merged + [Domain(Suffix, ".cn")], d);
      forall other ensures Find(Put(first, CN, whole), other) ==
                           if other == CN then Some(whole) else if other == GEOLOCATION_CN then Some(merged) else Find(t, other) {
        PutFind(t, GEOLOCATION_CN, merged, other);
        PutFind(first, CN, whole, other);
      }
    }
  }

  // ---------------------------------------------------------------- the order of what is merged

  /** Rules stand in one list in the order in which they first come in another, each once. */
  ghost predicate InOrderOf(some: seq<Domain>, all: seq<Domain>) {
    forall i, k | 0 <= i < k < |some| :: ComesFirst(all, some[i], some[k])
  }

  /** One rule comes in a list before another does. */
  ghost predicate ComesFirst(all: seq<Domain>, x: Domain, y: Domain) {
    exists a, b :: 0 <= a < b < |all| && all[a] == x && all[b] == y && x !in all[..a] && y !in all[..b]
  }

  /** They are the same rules. */
  ghost predicate FirstsOf(merged: seq<Domain>, all: seq<Domain>) {
    (forall d :: d in merged <==> d in all) && InOrderOf(merged, all)
  }

  lemma UniqueFirsts(all: seq<Domain>)
    ensures FirstsOf(Unique(all), all)
  {
    forall d ensures d in Unique(all) <==> d in all { UniqueIn(all, d); }
    forall i, k | 0 <= i < k < |Unique(all)| ensures ComesFirst(all, Unique(all)[i], Unique(all)[k]) {
      var a, b := UniqueOrder(all, i, k);
    }
  }

  /** The rules of the Chinese categories, category after category. */
  ghost function FromAll(t: Table): seq<Domain> {
    if t == [] then []
    else FromAll(t[..|t| - 1]) + (if FromChina(t[|t| - 1].code) then t[|t| - 1].domains else [])
  }

  lemma {:induction false} GatheredAll(t: Table)
    ensures Gathered(t) == FromAll(t)
    decreases |t|
  {
    if t != [] {
      var e := t[|t| - 1];
      GatheredAll(t[..|t| - 1]);
      ChineseExact(e.code);
      assert t == t[..|t| - 1] + [e];
      P.GatheredPush(t[..|t| - 1], e);
    }
  }

  /** The merged rules come in this order: those `geolocation-cn` had, then category after category, and
      `.cn` last, each where it comes first. */
  lemma ChinaOrder(t: Table)
    requires exists e :: Gathers(t, e)
    ensures Find(MergeChinese(t), "geolocation-cn").Some? && Find(MergeChinese(t), "cn").Some?
    ensures var merged := Find(MergeChinese(t), "geolocation-cn").value; (
      && FirstsOf(merged, OrEmpty(Find(t, "geolocation-cn")) + FromAll(t))
      && FirstsOf(Find(MergeChinese(t), "cn").value, merged + [Domain(Suffix, ".cn")]))
  {
    var e :| Gathers(t, e);
    GathersIn(t, e);
    GatheredAll(t);
    var merged := MergedChinese(t);
    var first, whole := Put(t, GEOLOCATION_CN, merged), Unique(merged + [Domain(Suffix, ".cn")]);
    PutFind(t, GEOLOCATION_CN, merged, GEOLOCATION_CN);
    PutFind(first, CN, whole, GEOLOCATION_CN);
    PutFind(first, CN, whole, CN);
    UniqueFirsts(OrEmpty(Find(t, GEOLOCATION_CN)) + Gathered(t));
    UniqueFirsts(merged + [Domain(Suffix, ".cn")]);
  }
}
