/** Release versions: reading and printing them, and the order in which they are offered, compared
    with the precedence of Semantic Versioning 2.0.0, section 11. */
module Versions {
  import opened Options
  import opened Strings
  import opened Decimals

  const MAX_SAFE := 0x1F_FFFF_FFFF_FFFF

  datatype Identifier = Numeric(number: nat) | Text(text: string)
  datatype SemVer = SemVer(major: nat, minor: nat, patch: nat, prerelease: seq<Identifier>)

  // ---------------------------------------------------------------- reading and printing

  predicate IdentifierChar(c: char) {
    '0' <= c <= '9' || 'A' <= c <= 'Z' || 'a' <= c <= 'z' || c == '-'
  }

  predicate IdentifierText(s: string) {
    s != "" && forall i | 0 <= i < |s| :: IdentifierChar(s[i])
  }

  function ReadNumber(s: string): Option<nat> {
    if Numeral(s) && Value(s) <= MAX_SAFE then Some(Value(s)) else None
  }

  function ReadIdentifier(s: string): Option<Identifier> {
    if !IdentifierText(s) then None
    else if !AllDigits(s) then Some(Text(s))
    else if |s| > 1 && s[0] == '0' then None
    else
      var n := ReadNumber(s);
      if n.None? then None else Some(Numeric(n.value))
  }

  function ReadIdentifiers(parts: seq<string>): Option<seq<Identifier>> {
    if parts == [] then Some([])
    else
      var before, last := ReadIdentifiers(parts[..|parts| - 1]), ReadIdentifier(parts[|parts| - 1]);
      if before.None? || last.None? then None else Some(before.value + [last.value])
  }

  /** Three numerals between points, and after a dash the identifiers of a prerelease. */
  function Parse(value: string): Option<SemVer> {
    var core := Split(Before(value, '-'), '.');
    var identifiers := if '-' in value then ReadIdentifiers(Split(After(value, '-'), '.')) else Some([]);
    if |core| != 3 || identifiers.None? then None
    else
      var major, minor, patch := ReadNumber(core[0]), ReadNumber(core[1]), ReadNumber(core[2]);
      if major.None? || minor.None? || patch.None? then None
      else Some(SemVer(major.value, minor.value, patch.value, identifiers.value))
  }

  function PrintIdentifier(i: Identifier): string {
    match i case Numeric(n) => Decimals.Print(n) case Text(text) => text
  }

  function PrintIdentifiers(ids: seq<Identifier>): (parts: seq<string>)
    ensures |parts| == |ids|
  {
    seq(|ids|, i requires 0 <= i < |ids| => PrintIdentifier(ids[i]))
  }

  function Print(v: SemVer): string {
    var core := Join([Decimals.Print(v.major), Decimals.Print(v.minor), Decimals.Print(v.patch)], '.');
    if v.prerelease == [] then core else core + "-" + Join(PrintIdentifiers(v.prerelease), '.')
  }

  predicate ProperIdentifier(i: Identifier) {
    match i
    case Numeric(n) => n <= MAX_SAFE
    case Text(text) => IdentifierText(text) && !AllDigits(text)
  }

  predicate Proper(v: SemVer) {
    && v.major <= MAX_SAFE && v.minor <= MAX_SAFE && v.patch <= MAX_SAFE
    && forall i | 0 <= i < |v.prerelease| :: ProperIdentifier(v.prerelease[i])
  }

  lemma IdentifierBack(i: Identifier)
    requires ProperIdentifier(i)
    ensures ReadIdentifier(PrintIdentifier(i)) == Some(i)
  {
    if i.Numeric? {
      ValuePrint(i.number);
      PrintNumeral(i.number);
    }
  }

  lemma IdentifierSame(s: string)
    requires ReadIdentifier(s).Some?
    ensures PrintIdentifier(ReadIdentifier(s).value) == s && ProperIdentifier(ReadIdentifier(s).value)
  {
    if AllDigits(s) { PrintValue(s); }
  }

  lemma {:induction false} IdentifiersBack(ids: seq<Identifier>)
    requires forall i | 0 <= i < |ids| :: ProperIdentifier(ids[i])
    ensures ReadIdentifiers(PrintIdentifiers(ids)) == Some(ids)
    decreases |ids|
  {
    if ids != [] {
      var front := ids[..|ids| - 1];
      IdentifiersBack(front);
      IdentifierBack(ids[|ids| - 1]);
      assert PrintIdentifiers(ids)[..|ids| - 1] == PrintIdentifiers(front);
      assert ids == front + [ids[|ids| - 1]];
    }
  }

  lemma {:induction false} IdentifiersSame(parts: seq<string>)
    requires ReadIdentifiers(parts).Some?
    ensures PrintIdentifiers(ReadIdentifiers(parts).value) == parts
    ensures forall i | 0 <= i < |ReadIdentifiers(parts).value| :: ProperIdentifier(ReadIdentifiers(parts).value[i])
    decreases |parts|
  {
    if parts != [] {
      var front := parts[..|parts| - 1];
      IdentifiersSame(front);
      IdentifierSame(parts[|parts| - 1]);
      var ids := ReadIdentifiers(parts).value;
      assert PrintIdentifiers(ids) == PrintIdentifiers(ReadIdentifiers(front).value) + [parts[|parts| - 1]];
      assert parts == front + [parts[|parts| - 1]];
    }
  }

  lemma NumberBack(n: nat)
    requires n <= MAX_SAFE
    ensures ReadNumber(Decimals.Print(n)) == Some(n)
    ensures '-' !in Decimals.Print(n) && '.' !in Decimals.Print(n)
  {
    ValuePrint(n);
    PrintNumeral(n);
  }

  lemma PrintedCore(v: SemVer)
    requires Proper(v)
    ensures var parts := [Decimals.Print(v.major), Decimals.Print(v.minor), Decimals.Print(v.patch)];
      && '-' !in Join(parts, '.') && Split(Join(parts, '.'), '.') == parts
      && ReadNumber(parts[0]) == Some(v.major) && ReadNumber(parts[1]) == Some(v.minor) && ReadNumber(parts[2]) == Some(v.patch)
  {
    var parts := [Decimals.Print(v.major), Decimals.Print(v.minor), Decimals.Print(v.patch)];
    NumberBack(v.major);
    NumberBack(v.minor);
    NumberBack(v.patch);
    SplitJoin(parts, '.');
    assert parts[1..][1..] == [parts[2]];
    assert Join(parts[1..][1..], '.') == parts[2];
    assert Join(parts[1..], '.') == parts[1] + ['.'] + parts[2];
    assert Join(parts, '.') == parts[0] + ['.'] + (parts[1] + ['.'] + parts[2]);
  }

  /** Reading a printed version gives it back. */
  lemma ParsePrint(v: SemVer)
    requires Proper(v)
    ensures Parse(Print(v)) == Some(v)
  {
    var core := Join([Decimals.Print(v.major), Decimals.Print(v.minor), Decimals.Print(v.patch)], '.');
    PrintedCore(v);
    if v.prerelease == [] {
      NoMark(core, '-');
    } else {
      var parts := PrintIdentifiers(v.prerelease);
      PrintedParts(v.prerelease);
      CutBack(core, '-', Join(parts, '.'));
      assert core + "-" + Join(parts, '.') == core + ['-'] + Join(parts, '.');
      assert (core + ['-'] + Join(parts, '.'))[|core|] == '-';
      SplitJoin(parts, '.');
      IdentifiersBack(v.prerelease);
    }
  }

  lemma PrintedParts(ids: seq<Identifier>)
    requires forall i | 0 <= i < |ids| :: ProperIdentifier(ids[i])
    ensures forall i | 0 <= i < |ids| :: '.' !in PrintIdentifiers(ids)[i]
  {
    forall i | 0 <= i < |ids| ensures '.' !in PrintIdentifiers(ids)[i] {
      if ids[i].Numeric? { NumberBack(ids[i].number); }
    }
  }

  lemma {:induction false} NoMark(s: string, mark: char)
    requires mark !in s
    ensures Before(s, mark) == s
  {
    if s != "" { NoMark(s[1..], mark); }
  }

  lemma CoreSame(s: string, core: seq<string>)
    requires core == Split(s, '.') && |core| == 3
    requires ReadNumber(core[0]).Some? && ReadNumber(core[1]).Some? && ReadNumber(core[2]).Some?
    ensures Join([Decimals.Print(ReadNumber(core[0]).value), Decimals.Print(ReadNumber(core[1]).value),
                  Decimals.Print(ReadNumber(core[2]).value)], '.') == s
  {
    PrintValue(core[0]);
    PrintValue(core[1]);
    PrintValue(core[2]);
    JoinSplit(s, '.');
    assert core == [core[0], core[1], core[2]];
  }

  /** Printing what was read gives back the text, and what is read is proper. */
  lemma PrintParse(value: string)
    requires Parse(value).Some?
    ensures Print(Parse(value).value) == value && Proper(Parse(value).value)
  {
    var core := Split(Before(value, '-'), '.');
    CoreSame(Before(value, '-'), core);
    if '-' in value {
      CutAt(value, '-');
      IdentifiersSame(Split(After(value, '-'), '.'));
      JoinSplit(After(value, '-'), '.');
    } else {
      NoMark(value, '-');
    }
  }

  // ---------------------------------------------------------------- the order

  function CompareNumbers(a: nat, b: nat): int {
    if a == b then 0 else if a > b then 1 else -1
  }

  /** Texts compare by the first character that differs. */
  function CompareTexts(a: string, b: string): int {
    if a == "" || b == "" then CompareNumbers(|a|, |b|)
    else if a[0] == b[0] then CompareTexts(a[1..], b[1..])
    else if a[0] > b[0] then 1 else -1
  }

  function CompareIdentifiers(a: Identifier, b: Identifier): int {
    match (a, b)
    case (Numeric(n), Numeric(k)) => CompareNumbers(n, k)
    case (Numeric(_), Text(_)) => -1
    case (Text(_), Numeric(_)) => 1
    case (Text(x), Text(y)) => CompareTexts(x, y)
  }

  function ComparePrereleases(a: seq<Identifier>, b: seq<Identifier>): int {
    if a == [] && b == [] then 0
    else if a == [] then -1
    else if b == [] then 1
    else
      var first := CompareIdentifiers(a[0], b[0]);
      if first != 0 then first else ComparePrereleases(a[1..], b[1..])
  }

  function Compare(a: SemVer, b: SemVer): int {
    if a.major != b.major then CompareNumbers(a.major, b.major)
    else if a.minor != b.minor then CompareNumbers(a.minor, b.minor)
    else if a.patch != b.patch then CompareNumbers(a.patch, b.patch)
    else if a.prerelease == [] || b.prerelease == [] then
      if |a.prerelease| == |b.prerelease| then 0 else if a.prerelease != [] then -1 else 1
    else ComparePrereleases(a.prerelease, b.prerelease)
  }

  // ---------------------------------------------------------------- a total order

  lemma {:induction false} TextsOrdered(a: string, b: string, c: string)
    ensures CompareTexts(a, b) == -CompareTexts(b, a) && -1 <= CompareTexts(a, b) <= 1
    ensures CompareTexts(a, b) == 0 <==> a == b
    ensures CompareTexts(a, b) <= 0 && CompareTexts(b, c) <= 0 ==> CompareTexts(a, c) <= 0
  {
    if a != "" && b != "" {
      if c != "" {
        TextsOrdered(a[1..], b[1..], c[1..]);
      } else {
        TextsOrdered(a[1..], b[1..], "");
      }
      assert a[0] == b[0] && a[1..] == b[1..] ==> a == [a[0]] + a[1..] == b;
    }
  }

  lemma IdentifiersOrdered(a: Identifier, b: Identifier, c: Identifier)
    ensures CompareIdentifiers(a, b) == -CompareIdentifiers(b, a) && -1 <= CompareIdentifiers(a, b) <= 1
    ensures CompareIdentifiers(a, b) == 0 <==> a == b
    ensures CompareIdentifiers(a, b) <= 0 && CompareIdentifiers(b, c) <= 0 ==> CompareIdentifiers(a, c) <= 0
  {
    if a.Text? && b.Text? {
      TextsOrdered(a.text, b.text, if c.Text? then c.text else "");
    }
  }

  lemma {:induction false} PrereleasesOrdered(a: seq<Identifier>, b: seq<Identifier>, c: seq<Identifier>)
    ensures ComparePrereleases(a, b) == -ComparePrereleases(b, a) && -1 <= ComparePrereleases(a, b) <= 1
    ensures ComparePrereleases(a, b) == 0 <==> a == b
    ensures ComparePrereleases(a, b) <= 0 && ComparePrereleases(b, c) <= 0 ==> ComparePrereleases(a, c) <= 0
  {
    if a != [] && b != [] {
      if c != [] {
        IdentifiersOrdered(a[0], b[0], c[0]);
        IdentifiersOrdered(b[0], c[0], a[0]);
        IdentifiersOrdered(a[0], c[0], b[0]);
        PrereleasesOrdered(a[1..], b[1..], c[1..]);
      } else {
        IdentifiersOrdered(a[0], b[0], a[0]);
        PrereleasesOrdered(a[1..], b[1..], []);
      }
      assert a[0] == b[0] && a[1..] == b[1..] ==> a == [a[0]] + a[1..] == b;
    }
  }

  /** The comparison is antisymmetric, transitive and total, and zero only between equal versions. */
  lemma TotalOrder(a: SemVer, b: SemVer, c: SemVer)
    ensures Compare(a, b) == -Compare(b, a) && -1 <= Compare(a, b) <= 1
    ensures Compare(a, b) == 0 <==> a == b
    ensures Compare(a, b) <= 0 && Compare(b, c) <= 0 ==> Compare(a, c) <= 0
  {
    PrereleasesOrdered(a.prerelease, b.prerelease, c.prerelease);
  }

  /** Two accepted texts compare as equal only if they are the same text. */
  lemma EqualTexts(left: string, right: string)
    requires Parse(left).Some? && Parse(right).Some?
    ensures Compare(Parse(left).value, Parse(right).value) == 0 <==> left == right
  {
    PrintParse(left);
    PrintParse(right);
    TotalOrder(Parse(left).value, Parse(right).value, Parse(left).value);
  }

  // ---------------------------------------------------------------- Semantic Versioning, section 11

  /** 11.4.2: in ASCII sort order. */
  ghost predicate LexicallyLower(a: string, b: string) {
    exists k :: 0 <= k <= |a| && k < |b| && a[..k] == b[..k] && (k == |a| || a[k] < b[k])
  }

  /** 11.4.1, 11.4.2 and 11.4.3: numerically, lexically, and numeric below alphanumeric. */
  ghost predicate IdentifierLower(a: Identifier, b: Identifier) {
    match (a, b)
    case (Numeric(n), Numeric(k)) => n < k
    case (Numeric(_), Text(_)) => true
    case (Text(_), Numeric(_)) => false
    case (Text(x), Text(y)) => LexicallyLower(x, y)
  }

  /** 11.4 and 11.4.4: by the first difference from left to right, and a larger set of fields is
      higher if all the preceding ones are equal. */
  ghost predicate PrereleaseLower(a: seq<Identifier>, b: seq<Identifier>) {
    exists k :: 0 <= k <= |a| && k < |b| && a[..k] == b[..k] && (k == |a| || IdentifierLower(a[k], b[k]))
  }

  /** 11.2 and 11.3: major, minor and patch numerically, and a prerelease below its release. */
  ghost predicate Precedes(a: SemVer, b: SemVer) {
    || a.major < b.major
    || (a.major == b.major && a.minor < b.minor)
    || (a.major == b.major && a.minor == b.minor && a.patch < b.patch)
    || (a.major == b.major && a.minor == b.minor && a.patch == b.patch &&
        if a.prerelease == [] then false
        else b.prerelease == [] || PrereleaseLower(a.prerelease, b.prerelease))
  }

  lemma {:induction false} TextsAreLexical(a: string, b: string)
    ensures CompareTexts(a, b) < 0 <==> LexicallyLower(a, b)
  {
    if a == "" {
      if b != "" { assert a[..0] == b[..0]; }
    } else if b != "" {
      TextsAreLexical(a[1..], b[1..]);
      if a[0] == b[0] {
        FirstsEqual(a, b);
      } else if a[0] < b[0] {
        assert a[..0] == b[..0];
      } else {
        forall k | 0 < k <= |a| && k < |b| ensures a[..k] != b[..k] {
          assert a[..k][0] == a[0] && b[..k][0] == b[0];
        }
      }
    }
  }

  lemma FirstsEqual(a: string, b: string)
    requires a != "" && b != "" && a[0] == b[0]
    ensures LexicallyLower(a, b) <==> LexicallyLower(a[1..], b[1..])
  {
    if LexicallyLower(a, b) { LowerRest(a, b); }
    if LexicallyLower(a[1..], b[1..]) { LowerWhole(a, b); }
  }

  lemma LowerRest(a: string, b: string)
    requires a != "" && b != "" && a[0] == b[0] && LexicallyLower(a, b)
    ensures LexicallyLower(a[1..], b[1..])
  {
    var k :| 0 <= k <= |a| && k < |b| && a[..k] == b[..k] && (k == |a| || a[k] < b[k]);
    assert a[1..][..k - 1] == a[..k][1..] && b[1..][..k - 1] == b[..k][1..];
  }

  lemma LowerWhole(a: string, b: string)
    requires a != "" && b != "" && a[0] == b[0] && LexicallyLower(a[1..], b[1..])
    ensures LexicallyLower(a, b)
  {
    var x, y := a[1..], b[1..];
    var k :| 0 <= k <= |x| && k < |y| && x[..k] == y[..k] && (k == |x| || x[k] < y[k]);
    assert a[..k + 1] == [a[0]] + x[..k] && b[..k + 1] == [b[0]] + y[..k];
  }

  lemma IdentifiersAreLower(a: Identifier, b: Identifier)
    ensures CompareIdentifiers(a, b) < 0 <==> IdentifierLower(a, b)
  {
    if a.Text? && b.Text? { TextsAreLexical(a.text, b.text); }
  }

  lemma {:induction false} PrereleasesAreLower(a: seq<Identifier>, b: seq<Identifier>)
    ensures ComparePrereleases(a, b) < 0 <==> PrereleaseLower(a, b)
  {
    if a == [] {
      if b != [] { assert a[..0] == b[..0]; }
    } else if b != [] {
      PrereleasesAreLower(a[1..], b[1..]);
      IdentifiersAreLower(a[0], b[0]);
      IdentifiersOrdered(a[0], b[0], a[0]);
      if a[0] == b[0] {
        SameFirst(a, b);
      } else {
        assert a[..0] == b[..0];
        forall k | 0 < k <= |a| && k < |b| ensures a[..k] != b[..k] {
          assert a[..k][0] == a[0] && b[..k][0] == b[0];
        }
      }
    }
  }

  lemma SameFirst(a: seq<Identifier>, b: seq<Identifier>)
    requires a != [] && b != [] && a[0] == b[0]
    ensures PrereleaseLower(a, b) <==> PrereleaseLower(a[1..], b[1..])
  {
    IdentifiersOrdered(a[0], b[0], a[0]);
    IdentifiersAreLower(a[0], b[0]);
    if PrereleaseLower(a, b) {
      var k :| 0 <= k <= |a| && k < |b| && a[..k] == b[..k] && (k == |a| || IdentifierLower(a[k], b[k]));
      assert a[1..][..k - 1] == a[..k][1..] && b[1..][..k - 1] == b[..k][1..];
    }
    if PrereleaseLower(a[1..], b[1..]) {
      var x, y := a[1..], b[1..];
      var k :| 0 <= k <= |x| && k < |y| && x[..k] == y[..k] && (k == |x| || IdentifierLower(x[k], y[k]));
      assert a[..k + 1] == [a[0]] + x[..k] && b[..k + 1] == [b[0]] + y[..k];
    }
  }

  /** A version compares lower exactly when it has lower precedence. */
  lemma MatchesPrecedence(a: SemVer, b: SemVer)
    ensures Compare(a, b) < 0 <==> Precedes(a, b)
  {
    PrereleasesAreLower(a.prerelease, b.prerelease);
  }

  /** The releases newer than the current one. */
  function Newer(current: SemVer, releases: seq<SemVer>): (r: seq<SemVer>)
    ensures forall v :: v in r <==> v in releases && Compare(v, current) > 0
  {
    if releases == [] then []
    else (if Compare(releases[0], current) > 0 then [releases[0]] else []) + Newer(current, releases[1..])
  }

  /** What the sort leaves: the same releases, the highest first. */
  ghost predicate SortedDown(candidates: seq<SemVer>, sorted: seq<SemVer>) {
    && multiset(sorted) == multiset(candidates)
    && forall k | 0 < k < |sorted| :: Compare(sorted[k], sorted[k - 1]) <= 0
  }

  lemma {:induction false} FirstIsHighest(sorted: seq<SemVer>, i: nat)
    requires i < |sorted| && forall k | 0 < k < |sorted| :: Compare(sorted[k], sorted[k - 1]) <= 0
    ensures Compare(sorted[i], sorted[0]) <= 0
  {
    if i > 0 {
      FirstIsHighest(sorted, i - 1);
      TotalOrder(sorted[i], sorted[i - 1], sorted[0]);
    } else {
      TotalOrder(sorted[0], sorted[0], sorted[0]);
    }
  }

  lemma SameMembers(candidates: seq<SemVer>, sorted: seq<SemVer>, v: SemVer)
    requires multiset(sorted) == multiset(candidates)
    ensures v in sorted <==> v in candidates
  {
    assert v in multiset(sorted) <==> v in sorted;
    assert v in multiset(candidates) <==> v in candidates;
  }

  /** However the releases arrive and whatever order the sort leaves among equals: one is offered
      exactly when some release is newer than the current one, and it is then a release that is newer,
      that no release is higher than, and that no other version could have taken the place of. */
  lemma OfferedIsNewest(current: SemVer, releases: seq<SemVer>, sorted: seq<SemVer>)
    requires SortedDown(Newer(current, releases), sorted)
    ensures sorted == [] <==> forall v | v in releases :: !Precedes(current, v)
    ensures sorted != [] ==>
      && sorted[0] in releases && Precedes(current, sorted[0])
      && (forall v | v in releases :: !Precedes(sorted[0], v))
      && (forall v | v in releases && v != sorted[0] :: Precedes(v, sorted[0]))
  {
    forall v | v in releases ensures v in sorted <==> Precedes(current, v) {
      SameMembers(Newer(current, releases), sorted, v);
      TotalOrder(current, v, v);
      MatchesPrecedence(current, v);
    }
    if sorted != [] {
      assert sorted[0] in sorted;
      SameMembers(Newer(current, releases), sorted, sorted[0]);
      forall v | v in releases ensures !Precedes(sorted[0], v) && (v != sorted[0] ==> Precedes(v, sorted[0])) {
        NoneHigher(current, releases, sorted, v);
      }
    }
  }

  lemma NoneHigher(current: SemVer, releases: seq<SemVer>, sorted: seq<SemVer>, v: SemVer)
    requires SortedDown(Newer(current, releases), sorted) && sorted != [] && v in releases
    ensures !Precedes(sorted[0], v) && (v != sorted[0] ==> Precedes(v, sorted[0]))
  {
    var top := sorted[0];
    assert top in sorted;
    SameMembers(Newer(current, releases), sorted, top);
    SameMembers(Newer(current, releases), sorted, v);
    if v in sorted {
      var i :| 0 <= i < |sorted| && sorted[i] == v;
      FirstIsHighest(sorted, i);
    } else {
      TotalOrder(v, current, top);
      TotalOrder(current, top, top);
    }
    TotalOrder(v, top, top);
    MatchesPrecedence(top, v);
    MatchesPrecedence(v, top);
  }

  // ---------------------------------------------------------------- the loops

  method ParseVersion(value: string) returns (r: Option<SemVer>)
    ensures r == Parse(value)
  {
    var core := Split(Before(value, '-'), '.');
    if |core| != 3 { return None; }
    var major, minor, patch := ReadNumber(core[0]), ReadNumber(core[1]), ReadNumber(core[2]);
    if major.None? || minor.None? || patch.None? { return None; }
    var parts := if '-' in value then Split(After(value, '-'), '.') else [];
    var prerelease: seq<Identifier> := [];
    for n := 0 to |parts|
      invariant ReadIdentifiers(parts[..n]) == Some(prerelease)
    {
      assert parts[..n + 1][..n] == parts[..n];
      var part := parts[n];
      if !IdentifierText(part) {
        ReadFails(parts, n + 1);
        return None;
      }
      if !AllDigits(part) {
        prerelease := prerelease + [Text(part)];
        continue;
      }
      if |part| > 1 && part[0] == '0' {
        ReadFails(parts, n + 1);
        return None;
      }
      if Value(part) > MAX_SAFE {
        ReadFails(parts, n + 1);
        return None;
      }
      prerelease := prerelease + [Numeric(Value(part))];
    }
    assert parts[..|parts|] == parts;
    r := Some(SemVer(major.value, minor.value, patch.value, prerelease));
  }

  lemma {:induction false} ReadFails(parts: seq<string>, n: nat)
    requires n <= |parts| && ReadIdentifiers(parts[..n]).None?
    ensures ReadIdentifiers(parts).None?
    decreases |parts| - n
  {
    if n == |parts| {
      assert parts[..n] == parts;
    } else {
      assert parts[..n + 1][..n] == parts[..n];
      ReadFails(parts, n + 1);
    }
  }

  method CompareVersions(left: string, right: string) returns (r: Option<int>)
    ensures r == if Parse(left).None? || Parse(right).None? then None
                 else Some(Compare(Parse(left).value, Parse(right).value))
  {
    var first := ParseVersion(left);
    var second := ParseVersion(right);
    if first.None? || second.None? { return None; }
    var a, b := first.value, second.value;
    if a.major != b.major { return Some(if a.major > b.major then 1 else -1); }
    if a.minor != b.minor { return Some(if a.minor > b.minor then 1 else -1); }
    if a.patch != b.patch { return Some(if a.patch > b.patch then 1 else -1); }
    var x, y := a.prerelease, b.prerelease;
    if x == [] || y == [] {
      return Some(if |x| == |y| then 0 else if |x| > 0 then -1 else 1);
    }
    var length := Max(|x|, |y|);
    for index := 0 to length
      invariant index <= |x| && index <= |y|
      invariant ComparePrereleases(x, y) == ComparePrereleases(x[index..], y[index..])
    {
      if index >= |x| || index >= |y| {
        return Some(if index >= |x| then -1 else 1);
      }
      assert x[index..][0] == x[index] && y[index..][0] == y[index];
      assert x[index..][1..] == x[index + 1..] && y[index..][1..] == y[index + 1..];
      IdentifiersOrdered(x[index], y[index], x[index]);
      if x[index] == y[index] { continue; }
      if x[index].Numeric? && y[index].Text? { return Some(-1); }
      if x[index].Text? && y[index].Numeric? { return Some(1); }
      return Some(CompareIdentifiers(x[index], y[index]));
    }
    r := Some(0);
  }

  function Max(a: nat, b: nat): nat {
    if a < b then b else a
  }
}
