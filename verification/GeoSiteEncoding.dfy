/** The canonical encoding of a GeoSite database, and that the parser inverts it. */
module GeoSiteEncoding {
  import opened Options
  import opened ProtoReader
  import opened ProtoEncoding
  import opened GeoSiteMessages

  type Encoder = string -> seq<Byte>

  function AttributeBlocks(encode: Encoder, attributes: seq<string>): seq<Field> {
    seq(|attributes|, i requires 0 <= i < |attributes| =>
      Block(3, EncodeFields([Block(1, encode(attributes[i]))])))
  }

  function DomainFields(encode: Encoder, d: ParsedDomain): seq<Field> {
    [Number(1, d.kind), Block(2, encode(d.value))] + AttributeBlocks(encode, d.attributes)
  }

  function DomainBlocks(encode: Encoder, domains: seq<ParsedDomain>): seq<Field> {
    seq(|domains|, i requires 0 <= i < |domains| => Block(2, EncodeFields(DomainFields(encode, domains[i]))))
  }

  function SiteFields(encode: Encoder, s: ParsedSite): seq<Field> {
    [Block(1, encode(s.code))] + DomainBlocks(encode, s.domains)
  }

  function SiteBlocks(encode: Encoder, sites: seq<ParsedSite>): seq<Field> {
    seq(|sites|, i requires 0 <= i < |sites| => Block(1, EncodeFields(SiteFields(encode, sites[i]))))
  }

  function EncodeDatabase(encode: Encoder, sites: seq<ParsedSite>): seq<Byte> {
    EncodeFields(SiteBlocks(encode, sites))
  }

  /** Decoding gives the string back. A strict decoder that drops a leading byte-order mark does so
      for every well-formed string that does not begin with one. */
  predicate Decodable(text: Text, encode: Encoder, s: string) {
    text.decode(encode(s)) == Some(s)
  }

  /** What the message format can say: attributes have keys, and kinds fit a number. */
  predicate SayableDomain(text: Text, encode: Encoder, d: ParsedDomain) {
    && d.kind <= MAX_SAFE && Decodable(text, encode, d.value)
    && forall a | a in d.attributes :: a != "" && Decodable(text, encode, a)
  }

  predicate Sayable(text: Text, encode: Encoder, s: ParsedSite) {
    Decodable(text, encode, s.code) && forall d | d in s.domains :: SayableDomain(text, encode, d)
  }

  // ---------------------------------------------------------------- sizes

  lemma {:induction false} PieceFits(pieces: seq<seq<Byte>>, i: nat)
    requires i < |pieces|
    ensures |pieces[i]| <= |Concat(pieces)|
  {
    if i > 0 {
      PieceFits(pieces[1..], i - 1);
    }
  }

  lemma PartFits(fs: seq<Field>, i: nat)
    requires i < |fs|
    ensures |EncodeValue(fs[i])| <= |EncodeFields(fs)|
  {
    PieceFits(Pieces(fs), i);
  }

  /** Blocks and numbers with small field numbers are writable when the whole message is small. */
  lemma SmallWritable(fs: seq<Field>)
    requires |EncodeFields(fs)| <= MAX_SAFE
    requires forall i | 0 <= i < |fs| :: Small(fs[i])
    ensures AllWritable(fs)
    ensures forall i | 0 <= i < |fs| && fs[i].Block? :: |fs[i].payload| <= |EncodeFields(fs)|
  {
    forall i | 0 <= i < |fs| ensures Writable(fs[i]) && (fs[i].Block? ==> |fs[i].payload| <= |EncodeFields(fs)|) {
      PartFits(fs, i);
    }
  }

  predicate Small(f: Field) {
    1 <= f.id <= 3 && (f.Block? || (f.Number? && f.value <= MAX_SAFE))
  }

  /** A message of a few fields followed by blocks is read back, and its blocks are no larger than it. */
  lemma BlocksAfter(head: seq<Field>, blocks: seq<Field>, id: nat)
    requires 1 <= id <= 3 && |EncodeFields(head + blocks)| <= MAX_SAFE
    requires forall i | 0 <= i < |head| :: Small(head[i])
    requires forall i | 0 <= i < |blocks| :: IsBlock(blocks[i], id)
    ensures Fields(EncodeFields(head + blocks)) == Some(head + blocks)
    ensures forall i | 0 <= i < |blocks| :: blocks[i].Block? && |blocks[i].payload| <= MAX_SAFE
  {
    var fs := head + blocks;
    forall i | 0 <= i < |fs| ensures Small(fs[i]) {
      if i >= |head| { assert fs[i] == blocks[i - |head|]; }
    }
    SmallWritable(fs);
    FieldsInvert(fs);
    forall i | 0 <= i < |blocks| ensures |blocks[i].payload| <= MAX_SAFE {
      assert blocks[i] == fs[|head| + i];
    }
  }

  // ---------------------------------------------------------------- what is read back

  lemma OtherBlocks(text: Text, fs: seq<Field>, more: seq<Field>, id: nat)
    requires forall i | 0 <= i < |more| :: !IsBlock(more[i], id)
    ensures LastText(text, fs + more, id) == LastText(text, fs, id)
  {
    if more == [] {
      assert fs + more == fs;
    } else {
      assert (fs + more)[..|fs + more| - 1] == fs + more[..|more| - 1];
      OtherBlocks(text, fs, more[..|more| - 1], id);
    }
  }

  lemma NoNumbers(fs: seq<Field>, more: seq<Field>, id: nat)
    requires forall i | 0 <= i < |more| :: !more[i].Number?
    ensures LastNumber(fs + more, id) == LastNumber(fs, id)
  {
    if more == [] {
      assert fs + more == fs;
    } else {
      assert (fs + more)[..|fs + more| - 1] == fs + more[..|more| - 1];
      NoNumbers(fs, more[..|more| - 1], id);
    }
  }

  lemma OneText(text: Text, f: Field, id: nat)
    requires IsBlock(f, id)
    ensures LastText(text, [f], id) == text.decode(f.payload)
  {
    assert [f][..0] == [];
  }

  lemma AttributeInverts(text: Text, encode: Encoder, key: string)
    requires Decodable(text, encode, key) && |EncodeFields([Block(1, encode(key))])| <= MAX_SAFE
    ensures AttributeIn(text, EncodeFields([Block(1, encode(key))])) == Some(key)
  {
    var fs := [Block(1, encode(key))];
    SmallWritable(fs);
    FieldsInvert(fs);
    OneText(text, fs[0], 1);
  }

  lemma AttributesPush(text: Text, fs: seq<Field>, f: Field, keys: seq<string>, key: string)
    requires AttributesIn(text, fs) == Some(keys)
    requires IsBlock(f, 3) && AttributeIn(text, f.payload) == Some(key) && key != ""
    ensures AttributesIn(text, fs + [f]) == Some(keys + [key])
  {
    Pushed(fs, f);
  }

  lemma DomainsPush(text: Text, fs: seq<Field>, f: Field, domains: seq<ParsedDomain>, d: ParsedDomain)
    requires DomainsIn(text, fs) == Some(domains)
    requires IsBlock(f, 2) && DomainIn(text, f.payload) == Some(d)
    ensures DomainsIn(text, fs + [f]) == Some(domains + [d])
  {
    Pushed(fs, f);
  }

  lemma Split<T>(s: seq<T>)
    requires s != []
    ensures s == s[..|s| - 1] + [s[|s| - 1]]
  {
  }

  /** The blocks hold the keys one by one. */
  ghost predicate HoldKeys(text: Text, blocks: seq<Field>, keys: seq<string>) {
    && |blocks| == |keys|
    && forall i | 0 <= i < |keys| ::
         IsBlock(blocks[i], 3) && AttributeIn(text, blocks[i].payload) == Some(keys[i]) && keys[i] != ""
  }

  lemma {:induction false} AttributesInvert(text: Text, head: seq<Field>, blocks: seq<Field>, keys: seq<string>)
    requires HoldKeys(text, blocks, keys) && AttributesIn(text, head) == Some([])
    ensures AttributesIn(text, head + blocks) == Some(keys)
    decreases |keys|
  {
    if keys == [] {
      assert head + blocks == head;
    } else {
      var n := |keys| - 1;
      AttributesInvert(text, head, blocks[..n], keys[..n]);
      AttributesPush(text, head + blocks[..n], blocks[n], keys[..n], keys[n]);
      Split(blocks);
      Split(keys);
      assert head + blocks == (head + blocks[..n]) + [blocks[n]];
    }
  }

  ghost predicate HoldDomains(text: Text, blocks: seq<Field>, domains: seq<ParsedDomain>) {
    && |blocks| == |domains|
    && forall i | 0 <= i < |domains| :: IsBlock(blocks[i], 2) && DomainIn(text, blocks[i].payload) == Some(domains[i])
  }

  lemma {:induction false} DomainsInvert(text: Text, head: seq<Field>, blocks: seq<Field>, domains: seq<ParsedDomain>)
    requires HoldDomains(text, blocks, domains) && DomainsIn(text, head) == Some([])
    ensures DomainsIn(text, head + blocks) == Some(domains)
    decreases |domains|
  {
    if domains == [] {
      assert head + blocks == head;
    } else {
      var n := |domains| - 1;
      DomainsInvert(text, head, blocks[..n], domains[..n]);
      DomainsPush(text, head + blocks[..n], blocks[n], domains[..n], domains[n]);
      Split(blocks);
      Split(domains);
      assert head + blocks == (head + blocks[..n]) + [blocks[n]];
    }
  }

  /** The fields before the attributes of a domain. */
  lemma DomainHead(text: Text, number: Field, value: Field)
    requires number.Number? && number.id == 1 && IsBlock(value, 2)
    ensures var head := [number, value];
      && LastNumber(head, 1) == number.value && LastText(text, head, 2) == text.decode(value.payload)
      && AttributesIn(text, head) == Some([])
  {
    var head := [number, value];
    assert head[..1] == [number] && head[..1][..0] == [];
    assert LastText(text, head[..1], 2) == Some("") && AttributesIn(text, head[..1]) == Some([]);
  }

  lemma KeysHeld(text: Text, encode: Encoder, keys: seq<string>, limit: nat)
    requires limit <= MAX_SAFE && forall a | a in keys :: a != "" && Decodable(text, encode, a)
    requires forall i | 0 <= i < |keys| :: |AttributeBlocks(encode, keys)[i].payload| <= limit
    ensures HoldKeys(text, AttributeBlocks(encode, keys), keys)
  {
    forall i | 0 <= i < |keys|
      ensures AttributeIn(text, AttributeBlocks(encode, keys)[i].payload) == Some(keys[i]) && keys[i] != "" {
      assert keys[i] in keys;
      AttributeInverts(text, encode, keys[i]);
    }
  }

  lemma DomainInverts(text: Text, encode: Encoder, d: ParsedDomain)
    requires SayableDomain(text, encode, d)
    requires |EncodeFields(DomainFields(encode, d))| <= MAX_SAFE
    ensures DomainIn(text, EncodeFields(DomainFields(encode, d))) == Some(d)
  {
    var head, blocks := [Number(1, d.kind), Block(2, encode(d.value))], AttributeBlocks(encode, d.attributes);
    BlocksAfter(head, blocks, 3);
    KeysHeld(text, encode, d.attributes, MAX_SAFE);
    DomainHead(text, head[0], head[1]);
    DomainFrom(text, head, blocks, d);
  }

  lemma DomainFrom(text: Text, head: seq<Field>, blocks: seq<Field>, d: ParsedDomain)
    requires LastNumber(head, 1) == d.kind && LastText(text, head, 2) == Some(d.value)
    requires AttributesIn(text, head) == Some([]) && HoldKeys(text, blocks, d.attributes)
    ensures LastNumber(head + blocks, 1) == d.kind && LastText(text, head + blocks, 2) == Some(d.value)
    ensures AttributesIn(text, head + blocks) == Some(d.attributes)
  {
    OtherBlocks(text, head, blocks, 2);
    NoNumbers(head, blocks, 1);
    AttributesInvert(text, head, blocks, d.attributes);
  }

  lemma SiteFrom(text: Text, code: Field, blocks: seq<Field>, s: ParsedSite)
    requires IsBlock(code, 1) && text.decode(code.payload) == Some(s.code) && HoldDomains(text, blocks, s.domains)
    ensures CodeIn(text, [code] + blocks) == Some(s.code) && DomainsIn(text, [code] + blocks) == Some(s.domains)
  {
    OtherBlocks(text, [code], blocks, 1);
    OneText(text, code, 1);
    OtherBlocks(text, [], [code] + blocks, 4);
    assert [] + ([code] + blocks) == [code] + blocks;
    assert [code][..0] == [];
    DomainsInvert(text, [code], blocks, s.domains);
  }

  lemma DomainsHeld(text: Text, encode: Encoder, domains: seq<ParsedDomain>, limit: nat)
    requires limit <= MAX_SAFE && forall d | d in domains :: SayableDomain(text, encode, d)
    requires forall i | 0 <= i < |domains| :: |DomainBlocks(encode, domains)[i].payload| <= limit
    ensures HoldDomains(text, DomainBlocks(encode, domains), domains)
  {
    forall i | 0 <= i < |domains| ensures DomainIn(text, DomainBlocks(encode, domains)[i].payload) == Some(domains[i]) {
      assert domains[i] in domains;
      assert DomainBlocks(encode, domains)[i].payload == EncodeFields(DomainFields(encode, domains[i]));
      DomainInverts(text, encode, domains[i]);
    }
  }

  lemma SiteInverts(text: Text, encode: Encoder, s: ParsedSite)
    requires Sayable(text, encode, s) && |EncodeFields(SiteFields(encode, s))| <= MAX_SAFE
    ensures SiteIn(text, EncodeFields(SiteFields(encode, s))) == Some(s)
  {
    var head, blocks := [Block(1, encode(s.code))], DomainBlocks(encode, s.domains);
    BlocksAfter(head, blocks, 2);
    DomainsHeld(text, encode, s.domains, MAX_SAFE);
    SiteFrom(text, head[0], blocks, s);
  }

  lemma SiteHeld(text: Text, encode: Encoder, sites: seq<ParsedSite>, i: nat, limit: nat)
    requires i < |sites| && Sayable(text, encode, sites[i]) && limit <= MAX_SAFE
    requires |SiteBlocks(encode, sites)[i].payload| <= limit
    ensures SiteIn(text, SiteBlocks(encode, sites)[i].payload) == Some(sites[i])
  {
    SiteInverts(text, encode, sites[i]);
  }

  /** Every list of sites is read back, site by site, from its encoding. */
  lemma DatabaseInverts(text: Text, encode: Encoder, sites: seq<ParsedSite>)
    requires forall i | 0 <= i < |sites| :: Sayable(text, encode, sites[i])
    requires |EncodeDatabase(encode, sites)| <= MAX_SAFE
    ensures var fs := Fields(EncodeDatabase(encode, sites));
      && fs.Some? && |fs.value| == |sites|
      && forall i | 0 <= i < |sites| ::
           IsBlock(fs.value[i], 1) && SiteIn(text, fs.value[i].payload) == Some(sites[i])
  {
    var fs := SiteBlocks(encode, sites);
    assert [] + fs == fs;
    BlocksAfter([], fs, 1);
    forall i | 0 <= i < |sites| ensures SiteIn(text, fs[i].payload) == Some(sites[i]) {
      SiteHeld(text, encode, sites, i, MAX_SAFE);
    }
  }
}
