/** The messages of a GeoSite database: what each holds as a function of its fields, and the loops
    that read them. */
module GeoSiteMessages {
  import opened Options
  import opened ProtoReader

  /** What the platform does with text: strict UTF-8 decoding, trimming, and trimming with
      lower-casing. */
  datatype Text = Text(decode: seq<Byte> -> Option<string>, trim: string -> string, canonical: string -> string)

  datatype ParsedDomain = ParsedDomain(kind: nat, value: string, attributes: seq<string>)
  datatype ParsedSite = ParsedSite(code: string, domains: seq<ParsedDomain>)

  // ---------------------------------------------------------------- what messages hold

  predicate IsBlock(f: Field, id: nat) {
    f.Block? && f.id == id
  }

  /** The last of the strings under a field number, which must all decode; empty if there is none. */
  function LastText(text: Text, fs: seq<Field>, id: nat): Option<string> {
    if fs == [] then Some("")
    else
      var before, last := LastText(text, fs[..|fs| - 1], id), fs[|fs| - 1];
      if before.None? || !IsBlock(last, id) then before else text.decode(last.payload)
  }

  function LastNumber(fs: seq<Field>, id: nat): nat {
    if fs == [] then 0
    else
      var last := fs[|fs| - 1];
      if last.Number? && last.id == id then last.value else LastNumber(fs[..|fs| - 1], id)
  }

  function AttributeIn(text: Text, b: seq<Byte>): Option<string> {
    var fs := Fields(b);
    if fs.None? then None else LastText(text, fs.value, 1)
  }

  /** Attributes without a key are dropped. */
  function AttributesIn(text: Text, fs: seq<Field>): Option<seq<string>> {
    if fs == [] then Some([])
    else
      var before, last := AttributesIn(text, fs[..|fs| - 1]), fs[|fs| - 1];
      if before.None? || !IsBlock(last, 3) then before
      else
        var key := AttributeIn(text, last.payload);
        if key.None? then None
        else if key.value == "" then before
        else Some(before.value + [key.value])
  }

  function DomainIn(text: Text, b: seq<Byte>): Option<ParsedDomain> {
    var fs := Fields(b);
    if fs.None? then None
    else
      var value, attributes := LastText(text, fs.value, 2), AttributesIn(text, fs.value);
      if value.None? || attributes.None? then None
      else Some(ParsedDomain(LastNumber(fs.value, 1), value.value, attributes.value))
  }

  function DomainsIn(text: Text, fs: seq<Field>): Option<seq<ParsedDomain>> {
    if fs == [] then Some([])
    else
      var before, last := DomainsIn(text, fs[..|fs| - 1]), fs[|fs| - 1];
      if before.None? || !IsBlock(last, 2) then before
      else
        var domain := DomainIn(text, last.payload);
        if domain.None? then None else Some(before.value + [domain.value])
  }

  /** The country code, or the other code where there is none. */
  function CodeIn(text: Text, fs: seq<Field>): Option<string> {
    var country, code := LastText(text, fs, 1), LastText(text, fs, 4);
    if country.None? || code.None? then None
    else if country.value != "" then country else code
  }

  function SiteCodeIn(text: Text, b: seq<Byte>): Option<string> {
    var fs := Fields(b);
    if fs.None? then None else CodeIn(text, fs.value)
  }

  function SiteIn(text: Text, b: seq<Byte>): (r: Option<ParsedSite>)
    ensures r.Some? ==> SiteCodeIn(text, b) == Some(r.value.code)
  {
    var fs := Fields(b);
    if fs.None? then None
    else
      var code, domains := CodeIn(text, fs.value), DomainsIn(text, fs.value);
      if code.None? || domains.None? then None else Some(ParsedSite(code.value, domains.value))
  }

  // ---------------------------------------------------------------- a prefix that fails

  lemma LastTextFails(text: Text, fs: seq<Field>, more: seq<Field>, id: nat)
    requires LastText(text, fs, id).None?
    ensures LastText(text, fs + more, id).None?
  {
    if more == [] {
      assert fs + more == fs;
    } else {
      assert (fs + more)[..|fs + more| - 1] == fs + more[..|more| - 1];
      LastTextFails(text, fs, more[..|more| - 1], id);
      LastTextDecoded(text, fs + more, id);
    }
  }

  lemma LastTextDecoded(text: Text, fs: seq<Field>, id: nat)
    requires fs != [] && LastText(text, fs[..|fs| - 1], id).None?
    ensures LastText(text, fs, id).None?
  {
  }

  lemma AttributesFail(text: Text, fs: seq<Field>, more: seq<Field>)
    requires AttributesIn(text, fs).None?
    ensures AttributesIn(text, fs + more).None?
  {
    if more == [] {
      assert fs + more == fs;
    } else {
      assert (fs + more)[..|fs + more| - 1] == fs + more[..|more| - 1];
      AttributesFail(text, fs, more[..|more| - 1]);
    }
  }

  lemma DomainsFail(text: Text, fs: seq<Field>, more: seq<Field>)
    requires DomainsIn(text, fs).None?
    ensures DomainsIn(text, fs + more).None?
  {
    if more == [] {
      assert fs + more == fs;
    } else {
      assert (fs + more)[..|fs + more| - 1] == fs + more[..|more| - 1];
      DomainsFail(text, fs, more[..|more| - 1]);
    }
  }

  // ---------------------------------------------------------------- reading field by field

  /** The fields of a slice whose first fields have been read. */
  function Then(seen: seq<Field>, rest: Option<seq<Field>>): Option<seq<Field>> {
    if rest.None? then None else Some(seen + rest.value)
  }

  lemma NothingSeen(b: seq<Byte>)
    ensures Fields(b) == Then([], FieldsFrom(b, 0))
  {
    if Fields(b).Some? {
      assert [] + Fields(b).value == Fields(b).value;
    }
  }

  lemma Turn(b: seq<Byte>, offset: nat, seen: seq<Field>)
    requires offset < |b| && Fields(b) == Then(seen, FieldsFrom(b, offset))
    ensures var first := FieldAt(b, offset);
      Fields(b) == if first.None? then None else Then(seen + [first.value.0], FieldsFrom(b, first.value.1))
  {
    var first := FieldAt(b, offset);
    if first.Some? && FieldsFrom(b, first.value.1).Some? {
      assert seen + ([first.value.0] + FieldsFrom(b, first.value.1).value)
          == (seen + [first.value.0]) + FieldsFrom(b, first.value.1).value;
    }
  }

  lemma Pushed(fs: seq<Field>, f: Field)
    ensures (fs + [f])[..|fs + [f]| - 1] == fs && (fs + [f])[|fs + [f]| - 1] == f
  {
  }

  lemma AttributeTextFails(text: Text, b: seq<Byte>, seen: seq<Field>, offset: nat)
    requires offset <= |b| && Fields(b) == Then(seen, FieldsFrom(b, offset)) && LastText(text, seen, 1).None?
    ensures AttributeIn(text, b).None?
  {
    if FieldsFrom(b, offset).Some? { LastTextFails(text, seen, FieldsFrom(b, offset).value, 1); }
  }

  predicate KeySoFar(text: Text, seen: seq<Field>, key: string) {
    LastText(text, seen, 1) == Some(key)
  }

  method ParseAttribute(text: Text, payload: seq<Byte>) returns (r: Option<string>)
    ensures r == AttributeIn(text, payload)
  {
    var reader := new Reader(payload);
    var key := "";
    ghost var seen := [];
    NothingSeen(payload);
    while !reader.AtEnd()
      invariant reader.Valid() && fresh(reader) && reader.bytes == payload
      invariant Fields(payload) == Then(seen, FieldsFrom(payload, reader.offset))
      invariant KeySoFar(text, seen, key)
      decreases |payload| - reader.offset
    {
      Turn(payload, reader.offset, seen);
      ghost var field := FieldAt(payload, reader.offset);
      var tag := reader.ReadTag();
      if tag.None? { return None; }
      if tag.value == (1, 2) {
        var bytes := reader.ReadBytes();
        if bytes.None? { return None; }
        var decoded := text.decode(bytes.value);
        Pushed(seen, field.value.0);
        if decoded.None? {
          AttributeTextFails(text, payload, seen + [field.value.0], reader.offset);
          return None;
        }
        key := decoded.value;
      } else {
        var ok := reader.Skip(tag.value.1);
        if !ok { return None; }
        Pushed(seen, field.value.0);
      }
      seen := seen + [field.value.0];
    }
    assert seen + [] == seen;
    r := Some(key);
  }

  /** What the fields seen so far leave in the variables of the loop over a domain. */
  predicate DomainSoFar(text: Text, seen: seq<Field>, kind: nat, value: string, attributes: seq<string>) {
    LastNumber(seen, 1) == kind && LastText(text, seen, 2) == Some(value) && AttributesIn(text, seen) == Some(attributes)
  }

  method ParseDomain(text: Text, payload: seq<Byte>) returns (r: Option<ParsedDomain>)
    ensures r == DomainIn(text, payload)
  {
    var reader := new Reader(payload);
    var kind, value, attributes := 0, "", [];
    ghost var seen := [];
    NothingSeen(payload);
    while !reader.AtEnd()
      invariant reader.Valid() && fresh(reader) && reader.bytes == payload
      invariant Fields(payload) == Then(seen, FieldsFrom(payload, reader.offset))
      invariant DomainSoFar(text, seen, kind, value, attributes)
      decreases |payload| - reader.offset
    {
      Turn(payload, reader.offset, seen);
      ghost var field := FieldAt(payload, reader.offset);
      var tag := reader.ReadTag();
      if tag.None? { return None; }
      if tag.value == (1, 0) {
        var number := reader.ReadVarint();
        if number.None? { return None; }
        kind := number.value;
        Pushed(seen, field.value.0);
      } else if tag.value == (2, 2) {
        var bytes := reader.ReadBytes();
        if bytes.None? { return None; }
        var decoded := text.decode(bytes.value);
        Pushed(seen, field.value.0);
        if decoded.None? {
          DomainTextFails(text, payload, seen + [field.value.0], reader.offset);
          return None;
        }
        value := decoded.value;
      } else if tag.value == (3, 2) {
        var bytes := reader.ReadBytes();
        if bytes.None? { return None; }
        var attribute := ParseAttribute(text, bytes.value);
        Pushed(seen, field.value.0);
        if attribute.None? {
          DomainAttributesFail(text, payload, seen + [field.value.0], reader.offset);
          return None;
        }
        if attribute.value != "" {
          attributes := attributes + [attribute.value];
        }
      } else {
        var ok := reader.Skip(tag.value.1);
        if !ok { return None; }
        Pushed(seen, field.value.0);
      }
      seen := seen + [field.value.0];
    }
    assert seen + [] == seen;
    r := Some(ParsedDomain(kind, value, attributes));
  }

  lemma DomainTextFails(text: Text, b: seq<Byte>, seen: seq<Field>, offset: nat)
    requires offset <= |b| && Fields(b) == Then(seen, FieldsFrom(b, offset)) && LastText(text, seen, 2).None?
    ensures DomainIn(text, b).None?
  {
    if FieldsFrom(b, offset).Some? { LastTextFails(text, seen, FieldsFrom(b, offset).value, 2); }
  }

  lemma DomainAttributesFail(text: Text, b: seq<Byte>, seen: seq<Field>, offset: nat)
    requires offset <= |b| && Fields(b) == Then(seen, FieldsFrom(b, offset)) && AttributesIn(text, seen).None?
    ensures DomainIn(text, b).None?
  {
    if FieldsFrom(b, offset).Some? { AttributesFail(text, seen, FieldsFrom(b, offset).value); }
  }

  predicate CodeSoFar(text: Text, seen: seq<Field>, country: string, code: string) {
    LastText(text, seen, 1) == Some(country) && LastText(text, seen, 4) == Some(code)
  }

  lemma CodeFails(text: Text, b: seq<Byte>, seen: seq<Field>, offset: nat, id: nat)
    requires offset <= |b| && Fields(b) == Then(seen, FieldsFrom(b, offset)) && LastText(text, seen, id).None?
    requires id == 1 || id == 4
    ensures SiteCodeIn(text, b).None? && SiteIn(text, b).None?
  {
    if FieldsFrom(b, offset).Some? { LastTextFails(text, seen, FieldsFrom(b, offset).value, id); }
  }

  method ParseSiteCode(text: Text, payload: seq<Byte>) returns (r: Option<string>)
    ensures r == SiteCodeIn(text, payload)
  {
    var reader := new Reader(payload);
    var country, code := "", "";
    ghost var seen := [];
    NothingSeen(payload);
    while !reader.AtEnd()
      invariant reader.Valid() && fresh(reader) && reader.bytes == payload
      invariant Fields(payload) == Then(seen, FieldsFrom(payload, reader.offset))
      invariant CodeSoFar(text, seen, country, code)
      decreases |payload| - reader.offset
    {
      Turn(payload, reader.offset, seen);
      ghost var field := FieldAt(payload, reader.offset);
      var tag := reader.ReadTag();
      if tag.None? { return None; }
      if tag.value == (1, 2) || tag.value == (4, 2) {
        var bytes := reader.ReadBytes();
        if bytes.None? { return None; }
        var decoded := text.decode(bytes.value);
        Pushed(seen, field.value.0);
        if decoded.None? {
          CodeFails(text, payload, seen + [field.value.0], reader.offset, tag.value.0);
          return None;
        }
        if tag.value.0 == 1 { country := decoded.value; } else { code := decoded.value; }
      } else {
        var ok := reader.Skip(tag.value.1);
        if !ok { return None; }
        Pushed(seen, field.value.0);
      }
      seen := seen + [field.value.0];
    }
    assert seen + [] == seen;
    r := Some(if country != "" then country else code);
  }

  lemma SiteDomainsFail(text: Text, b: seq<Byte>, seen: seq<Field>, offset: nat)
    requires offset <= |b| && Fields(b) == Then(seen, FieldsFrom(b, offset)) && DomainsIn(text, seen).None?
    ensures SiteIn(text, b).None?
  {
    if FieldsFrom(b, offset).Some? { DomainsFail(text, seen, FieldsFrom(b, offset).value); }
  }

  method ParseSite(text: Text, payload: seq<Byte>) returns (r: Option<ParsedSite>)
    ensures r == SiteIn(text, payload)
  {
    var reader := new Reader(payload);
    var country, code, domains := "", "", [];
    ghost var seen := [];
    NothingSeen(payload);
    while !reader.AtEnd()
      invariant reader.Valid() && fresh(reader) && reader.bytes == payload
      invariant Fields(payload) == Then(seen, FieldsFrom(payload, reader.offset))
      invariant CodeSoFar(text, seen, country, code)
      invariant DomainsIn(text, seen) == Some(domains)
      decreases |payload| - reader.offset
    {
      Turn(payload, reader.offset, seen);
      ghost var field := FieldAt(payload, reader.offset);
      var tag := reader.ReadTag();
      if tag.None? { return None; }
      if tag.value == (1, 2) || tag.value == (4, 2) {
        var bytes := reader.ReadBytes();
        if bytes.None? { return None; }
        var decoded := text.decode(bytes.value);
        Pushed(seen, field.value.0);
        if decoded.None? {
          CodeFails(text, payload, seen + [field.value.0], reader.offset, tag.value.0);
          return None;
        }
        if tag.value.0 == 1 { country := decoded.value; } else { code := decoded.value; }
      } else if tag.value == (2, 2) {
        var bytes := reader.ReadBytes();
        if bytes.None? { return None; }
        var domain := ParseDomain(text, bytes.value);
        Pushed(seen, field.value.0);
        if domain.None? {
          SiteDomainsFail(text, payload, seen + [field.value.0], reader.offset);
          return None;
        }
        domains := domains + [domain.value];
      } else {
        var ok := reader.Skip(tag.value.1);
        if !ok { return None; }
        Pushed(seen, field.value.0);
      }
      seen := seen + [field.value.0];
    }
    assert seen + [] == seen;
    r := Some(ParsedSite(if country != "" then country else code, domains));
  }
}
