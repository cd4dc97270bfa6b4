/** Which texts are versions, letter by letter. */
module VersionTexts {
  import opened Options
  import Decimals
  import opened Strings
  import opened Versions

  const UPPER := "ABCDEFGHIJKLMNOPQRSTUVWXYZ"
  const LOWER := "abcdefghijklmnopqrstuvwxyz"
  const DIGITS := "0123456789"

  lemma UpperExact(c: char)
    ensures 'A' <= c <= 'Z' <==> c in UPPER
  {
    if 'A' <= c <= 'Z' { assert UPPER[c as int - 'A' as int] == c; }
  }

  lemma LowerExact(c: char)
    ensures 'a' <= c <= 'z' <==> c in LOWER
  {
    if 'a' <= c <= 'z' { assert LOWER[c as int - 'a' as int] == c; }
  }

  lemma DigitExact(c: char)
    ensures '0' <= c <= '9' <==> c in DIGITS
  {
    if '0' <= c <= '9' { assert DIGITS[c as int - '0' as int] == c; }
  }

  /** The letters of an identifier. */
  predicate Letter(c: char) {
    c in UPPER || c in LOWER || c in DIGITS || c == '-'
  }

  lemma LetterExact(c: char)
    ensures IdentifierChar(c) <==> Letter(c)
  {
    UpperExact(c);
    LowerExact(c);
    DigitExact(c);
  }

  predicate Digits(s: string) {
    s != "" && forall i | 0 <= i < |s| :: s[i] in DIGITS
  }

  lemma DigitsExact(s: string)
    ensures Decimals.AllDigits(s) <==> Digits(s)
  {
    forall i | 0 <= i < |s| ensures Decimals.IsDigit(s[i]) <==> s[i] in DIGITS { DigitExact(s[i]); }
  }

  /** An identifier is a number up to 2^53-1, or a text of letters, digits and dashes that is no number. */
  predicate Sound(i: Identifier) {
    match i
    case Numeric(n) => n <= 9007199254740991
    case Text(text) => text != "" && (forall k | 0 <= k < |text| :: Letter(text[k])) && !Digits(text)
  }

  lemma SoundExact(i: Identifier)
    ensures ProperIdentifier(i) <==> Sound(i)
  {
    if i.Text? {
      DigitsExact(i.text);
      forall k | 0 <= k < |i.text| ensures IdentifierChar(i.text[k]) <==> Letter(i.text[k]) { LetterExact(i.text[k]); }
    }
  }

  /** Identifiers with dots between them. */
  function Dotted(ids: seq<Identifier>): string
    requires ids != []
  {
    var first := match ids[0] case Numeric(n) => Decimals.Print(n) case Text(text) => text;
    if |ids| == 1 then first else first + "." + Dotted(ids[1..])
  }

  lemma {:induction false} DottedExact(ids: seq<Identifier>)
    requires ids != []
    ensures Join(PrintIdentifiers(ids), '.') == Dotted(ids)
  {
    if |ids| > 1 {
      DottedExact(ids[1..]);
      assert PrintIdentifiers(ids)[1..] == PrintIdentifiers(ids[1..]);
    }
  }

  /** The text of a version: three numbers with dots between them, and behind a dash the identifiers of
      a prerelease. */
  function TextOf(v: SemVer): string {
    Decimals.Print(v.major) + "." + Decimals.Print(v.minor) + "." + Decimals.Print(v.patch)
    + (if v.prerelease == [] then "" else "-" + Dotted(v.prerelease))
  }

  lemma PrintExact(v: SemVer)
    ensures Print(v) == TextOf(v)
  {
    var a, b, c := Decimals.Print(v.major), Decimals.Print(v.minor), Decimals.Print(v.patch);
    assert [a, b, c][1..] == [b, c] && [b, c][1..] == [c];
    assert Join([b, c], '.') == b + ['.'] + c;
    assert Join([a, b, c], '.') == a + ['.'] + (b + ['.'] + c) == a + "." + b + "." + c;
    if v.prerelease != [] { DottedExact(v.prerelease); }
  }

  /** A text is read as a version if and only if it is the text of that version, its numbers at most
      2^53-1 and its identifiers sound. */
  lemma VersionExact(value: string, v: SemVer)
    ensures Parse(value) == Some(v) <==>
            && value == TextOf(v)
            && v.major <= 9007199254740991 && v.minor <= 9007199254740991 && v.patch <= 9007199254740991
            && forall i | 0 <= i < |v.prerelease| :: Sound(v.prerelease[i])
  {
    PrintExact(v);
    forall i | 0 <= i < |v.prerelease| ensures ProperIdentifier(v.prerelease[i]) <==> Sound(v.prerelease[i]) {
      SoundExact(v.prerelease[i]);
    }
    if Parse(value) == Some(v) {
      PrintParse(value);
    }
    if Proper(v) {
      ParsePrint(v);
    }
  }
}
