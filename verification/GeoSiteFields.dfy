/** What the parsed messages hold, told of the fields of the message: the last of the single ones, all
    of the repeated ones in order. */
module GeoSiteFields {
  import opened Options
  import opened ProtoReader
  import opened GeoSiteMessages
  import opened Selections

  /** Field `i` is the last counted block with its number. */
  ghost predicate LastBlock(fs: seq<Field>, id: nat, i: nat) {
    i < |fs| && fs[i].Block? && fs[i].id == id && forall k | i < k < |fs| :: !(fs[k].Block? && fs[k].id == id)
  }

  ghost predicate NoBlock(fs: seq<Field>, id: nat) {
    forall k | 0 <= k < |fs| :: !(fs[k].Block? && fs[k].id == id)
  }

  ghost predicate Decodes(text: Text, fs: seq<Field>, id: nat) {
    forall k | 0 <= k < |fs| && fs[k].Block? && fs[k].id == id :: text.decode(fs[k].payload).Some?
  }

  lemma {:induction false} TextReads(text: Text, fs: seq<Field>, id: nat)
    ensures LastText(text, fs, id).Some? <==> Decodes(text, fs, id)
    decreases |fs|
  {
    if fs != [] {
      var front, last := fs[..|fs| - 1], |fs| - 1;
      TextReads(text, front, id);
      assert forall k | 0 <= k < |front| :: front[k] == fs[k];
      assert Decodes(text, fs, id) <==>
             Decodes(text, front, id) && (IsBlock(fs[last], id) ==> text.decode(fs[last].payload).Some?);
    }
  }

  lemma {:induction false} TextLast(text: Text, fs: seq<Field>, id: nat)
    requires LastText(text, fs, id).Some?
    ensures NoBlock(fs, id) ==> LastText(text, fs, id) == Some("")
    ensures forall i: nat | LastBlock(fs, id, i) :: LastText(text, fs, id) == text.decode(fs[i].payload)
    ensures NoBlock(fs, id) || exists i: nat :: LastBlock(fs, id, i)
    decreases |fs|
  {
    if fs != [] {
      var front, last := fs[..|fs| - 1], |fs| - 1;
      assert forall k | 0 <= k < |front| :: front[k] == fs[k];
      if IsBlock(fs[last], id) {
        assert LastBlock(fs, id, last);
      } else {
        TextLast(text, front, id);
        forall i: nat | LastBlock(fs, id, i) ensures LastBlock(front, id, i) {
        }
        if i: nat :| LastBlock(front, id, i) {
          assert LastBlock(fs, id, i);
        }
      }
    }
  }

  /** A text is that of the last block with its number, and empty without one; it is read if and only
      if every block with that number can be decoded. */
  lemma TextExact(text: Text, fs: seq<Field>, id: nat, s: string)
    ensures LastText(text, fs, id) == Some(s) <==>
            && Decodes(text, fs, id)
            && ((NoBlock(fs, id) && s == "") || exists i: nat :: LastBlock(fs, id, i) && text.decode(fs[i].payload) == Some(s))
  {
    TextReads(text, fs, id);
    if Decodes(text, fs, id) {
      TextLast(text, fs, id);
    }
  }

  /** A number is the last varint with its number, and zero without one. */
  lemma {:induction false} NumberExact(fs: seq<Field>, id: nat)
    ensures (exists i :: 0 <= i < |fs| && fs[i].Number? && fs[i].id == id && fs[i].value == LastNumber(fs, id)
                         && forall k | i < k < |fs| :: !(fs[k].Number? && fs[k].id == id))
         || (LastNumber(fs, id) == 0 && forall k | 0 <= k < |fs| :: !(fs[k].Number? && fs[k].id == id))
    decreases |fs|
  {
    if fs != [] {
      var front, last := fs[..|fs| - 1], |fs| - 1;
      NumberExact(front, id);
      assert forall k | 0 <= k < |front| :: front[k] == fs[k];
      if fs[last].Number? && fs[last].id == id {
        assert fs[last].value == LastNumber(fs, id);
      } else if i :| 0 <= i < |front| && front[i].Number? && front[i].id == id && front[i].value == LastNumber(front, id)
                     && forall k | i < k < |front| :: !(front[k].Number? && front[k].id == id) {
        assert fs[i].value == LastNumber(fs, id);
      }
    }
  }

  // ---------------------------------------------------------------- repeated fields

  function BlocksOf(fs: seq<Field>, id: nat): nat -> bool {
    (i: nat) => i < |fs| && fs[i].Block? && fs[i].id == id
  }

  /** The blocks with a number whose attribute is not empty. */
  function Named(text: Text, fs: seq<Field>): nat -> bool {
    (i: nat) => i < |fs| && fs[i].Block? && fs[i].id == 3 && AttributeIn(text, fs[i].payload) != Some("")
  }

  ghost predicate AllDomains(text: Text, blocks: seq<Field>, domains: seq<ParsedDomain>) {
    && |domains| == |blocks|
    && forall k | 0 <= k < |blocks| :: blocks[k].Block? && DomainIn(text, blocks[k].payload) == Some(domains[k])
  }

  ghost predicate AllKeys(text: Text, blocks: seq<Field>, keys: seq<string>) {
    && |keys| == |blocks|
    && forall k | 0 <= k < |blocks| :: blocks[k].Block? && AttributeIn(text, blocks[k].payload) == Some(keys[k])
  }

  lemma SameBlocks(fs: seq<Field>, id: nat, n: nat)
    requires n <= |fs|
    ensures Picked(fs[..n], Places(n, BlocksOf(fs[..n], id))) == Picked(fs, Places(n, BlocksOf(fs, id)))
  {
    SamePlaces(n, BlocksOf(fs[..n], id), BlocksOf(fs, id));
  }

  lemma SameNamed(text: Text, fs: seq<Field>, n: nat)
    requires n <= |fs|
    ensures Picked(fs[..n], Places(n, Named(text, fs[..n]))) == Picked(fs, Places(n, Named(text, fs)))
  {
    var front := fs[..n];
    forall i: nat | i < n ensures Named(text, front)(i) == Named(text, fs)(i) {
      assert front[i] == fs[i];
    }
    SamePlaces(n, Named(text, front), Named(text, fs));
  }

  lemma {:induction false} SamePlaces(n: nat, a: nat -> bool, b: nat -> bool)
    requires forall i: nat | i < n :: a(i) == b(i)
    ensures Places(n, a) == Places(n, b)
  {
    if n > 0 { SamePlaces(n - 1, a, b); }
  }

  /** The domains of a site are those of its blocks with number two, in order, if all can be read. */
  lemma {:induction false} DomainsExact(text: Text, fs: seq<Field>, domains: seq<ParsedDomain>)
    ensures DomainsIn(text, fs) == Some(domains) <==> AllDomains(text, Picked(fs, Places(|fs|, BlocksOf(fs, 2))), domains)
    decreases |fs|
  {
    var blocks := Picked(fs, Places(|fs|, BlocksOf(fs, 2)));
    if fs != [] {
      var n := |fs| - 1;
      var front := Picked(fs[..n], Places(n, BlocksOf(fs[..n], 2)));
      SameBlocks(fs, 2, n);
      PickedPush(fs, n, BlocksOf(fs, 2));
      if IsBlock(fs[n], 2) {
        assert blocks == front + [fs[n]];
        DomainsLast(text, fs, front, domains);
      } else {
        assert blocks == front;
        DomainsExact(text, fs[..n], domains);
      }
    }
  }

  lemma {:induction false} DomainsLast(text: Text, fs: seq<Field>, front: seq<Field>, domains: seq<ParsedDomain>)
    requires fs != [] && IsBlock(fs[|fs| - 1], 2)
    requires front == Picked(fs[..|fs| - 1], Places(|fs| - 1, BlocksOf(fs[..|fs| - 1], 2)))
    ensures DomainsIn(text, fs) == Some(domains) <==> AllDomains(text, front + [fs[|fs| - 1]], domains)
    decreases |fs|, 0
  {
    var n := |fs| - 1;
    var before := DomainsIn(text, fs[..n]);
    var whole := front + [fs[n]];
    if before.Some? { DomainsExact(text, fs[..n], before.value); }
    if AllDomains(text, whole, domains) {
      assert whole[|front|] == fs[n];
      assert forall k | 0 <= k < |front| :: whole[k] == front[k];
      DomainsExact(text, fs[..n], domains[..|front|]);
      assert domains == domains[..|front|] + [domains[|front|]];
    }
  }

  ghost predicate KeysRead(text: Text, fs: seq<Field>) {
    forall k | 0 <= k < |fs| && fs[k].Block? && fs[k].id == 3 :: AttributeIn(text, fs[k].payload).Some?
  }

  /** The attributes of a domain are the keys of its blocks with number three, in order and without the
      empty ones, if all can be read. */
  lemma {:induction false} AttributesExact(text: Text, fs: seq<Field>, keys: seq<string>)
    ensures AttributesIn(text, fs) == Some(keys) <==>
            KeysRead(text, fs) && AllKeys(text, Picked(fs, Places(|fs|, Named(text, fs))), keys)
    decreases |fs|
  {
    var blocks := Picked(fs, Places(|fs|, Named(text, fs)));
    if fs != [] {
      var n := |fs| - 1;
      var front := Picked(fs[..n], Places(n, Named(text, fs[..n])));
      SameNamed(text, fs, n);
      PickedPush(fs, n, Named(text, fs));
      KeysFront(text, fs);
      if IsBlock(fs[n], 3) && AttributeIn(text, fs[n].payload) != Some("") {
        KeysLast(text, fs, front, keys);
      } else {
        assert !Named(text, fs)(n);
        assert AttributesIn(text, fs) == AttributesIn(text, fs[..n]);
        AttributesExact(text, fs[..n], keys);
        assert blocks == front;
      }
    }
  }

  lemma KeysFront(text: Text, fs: seq<Field>)
    requires fs != []
    ensures var last := fs[|fs| - 1];
      KeysRead(text, fs) <==> KeysRead(text, fs[..|fs| - 1]) && (IsBlock(last, 3) ==> AttributeIn(text, last.payload).Some?)
  {
    var front := fs[..|fs| - 1];
    assert forall k | 0 <= k < |front| :: front[k] == fs[k];
  }

  lemma {:induction false} KeysLast(text: Text, fs: seq<Field>, front: seq<Field>, keys: seq<string>)
    requires fs != [] && IsBlock(fs[|fs| - 1], 3) && AttributeIn(text, fs[|fs| - 1].payload) != Some("")
    requires front == Picked(fs[..|fs| - 1], Places(|fs| - 1, Named(text, fs[..|fs| - 1])))
    ensures AttributesIn(text, fs) == Some(keys) <==>
            KeysRead(text, fs[..|fs| - 1]) && AllKeys(text, front + [fs[|fs| - 1]], keys)
    decreases |fs|, 0
  {
    var n := |fs| - 1;
    var before := AttributesIn(text, fs[..n]);
    var whole := front + [fs[n]];
    if before.Some? { AttributesExact(text, fs[..n], before.value); }
    if AllKeys(text, whole, keys) {
      assert whole[|front|] == fs[n];
      assert forall k | 0 <= k < |front| :: whole[k] == front[k];
      AttributesExact(text, fs[..n], keys[..|front|]);
      assert keys == keys[..|front|] + [keys[|front|]];
    }
  }

  // ---------------------------------------------------------------- the messages

  /** The code of a site is its text with number one, or that with number four where it is empty; both
      have to be readable. */
  lemma CodeExact(text: Text, fs: seq<Field>, code: string)
    ensures CodeIn(text, fs) == Some(code) <==>
            exists country, other :: LastText(text, fs, 1) == Some(country) && LastText(text, fs, 4) == Some(other)
                                     && code == if country == "" then other else country
  {
    if CodeIn(text, fs) == Some(code) {
      var country, other := LastText(text, fs, 1).value, LastText(text, fs, 4).value;
      assert LastText(text, fs, 1) == Some(country) && LastText(text, fs, 4) == Some(other);
    }
  }
}
