/** What the reader accepts, exactly: numbers digit by digit, fields by their wire types, and messages
    as chains of fields, as "Base 128 Varints" and "Message Structure" of the Protocol Buffers encoding
    have them, within the reader's limits. */
module ProtoExact {
  import opened Options
  import opened ProtoReader
  import opened ProtoEncoding

  // ---------------------------------------------------------------- numbers

  /** The value of some groups of seven bits, the lowest first. */
  function Weighed(groups: seq<Byte>): nat {
    if groups == [] then 0
    else Weighed(groups[..|groups| - 1]) + groups[|groups| - 1] % 128 * Pow128(|groups| - 1)
  }

  lemma {:induction false} WeighedHead(groups: seq<Byte>)
    requires groups != []
    ensures Weighed(groups) == groups[0] % 128 + 128 * Weighed(groups[1..])
    decreases |groups|
  {
    var n := |groups| - 1;
    if n == 0 {
      assert groups[1..] == [] && groups[..0] == [];
      assert Pow128(0) == 1;
    } else {
      WeighedHead(groups[..n]);
      assert groups[..n][1..] == groups[1..][..n - 1];
      assert Pow128(n) == 128 * Pow128(n - 1);
      Shifted(groups[n] % 128, Pow128(n - 1));
    }
  }

  lemma Shifted(digit: nat, power: nat)
    ensures digit * (128 * power) == 128 * (digit * power)
  {
  }

  /** Every byte but the last says that another follows. */
  predicate Group(groups: seq<Byte>) {
    && groups != [] && groups[|groups| - 1] < 128
    && forall k | 0 <= k < |groups| - 1 :: groups[k] >= 128
  }

  lemma {:induction false} GroupsExact(b: seq<Byte>, offset: nat, limit: nat, n: nat, end: nat)
    ensures Groups(b, offset, limit) == Some((n, end)) <==>
            offset < end <= |b| && end - offset <= limit && Group(b[offset..end]) && Weighed(b[offset..end]) == n
    decreases limit
  {
    if limit > 0 && offset < |b| && end <= |b| && offset < end {
      var groups := b[offset..end];
      WeighedHead(groups);
      assert groups[1..] == b[offset + 1..end];
      if b[offset] < 128 {
        assert Group(groups) ==> |groups| == 1;
        assert end == offset + 1 ==> groups[1..] == [];
      } else {
        MoreGroups(groups);
        GroupsExact(b, offset + 1, limit - 1, Weighed(groups[1..]), end);
        var rest := Groups(b, offset + 1, limit - 1);
        if rest.Some? { GroupsExact(b, offset + 1, limit - 1, rest.value.0, end); }
        GroupPart(b[offset]);
      }
    }
  }

  lemma MoreGroups(groups: seq<Byte>)
    requires groups != [] && groups[0] >= 128
    ensures Group(groups) <==> Group(groups[1..])
  {
    if |groups| > 1 {
      var rest := groups[1..];
      assert forall k | 0 <= k < |rest| :: rest[k] == groups[k + 1];
      assert forall k | 0 < k < |groups| :: groups[k] == rest[k - 1];
    }
  }

  /** A number is read at a place if and only if at most ten bytes there, all but the last marked, make
      it up, lowest group first, and it is at most 2^53-1. */
  lemma VarintExact(b: seq<Byte>, offset: nat, n: nat, end: nat)
    ensures VarintAt(b, offset) == Some((n, end)) <==>
            && offset < end <= |b| && end - offset <= 10
            && b[end - 1] < 128 && (forall k | offset <= k < end - 1 :: b[k] >= 128)
            && Weighed(b[offset..end]) == n && n <= 9007199254740991
  {
    GroupsExact(b, offset, 10, n, end);
    if offset < end <= |b| {
      var groups := b[offset..end];
      assert groups[|groups| - 1] == b[end - 1];
      assert forall k | 0 <= k < |groups| :: groups[k] == b[offset + k];
      assert (forall k | offset <= k < end - 1 :: b[k] >= 128) ==> forall k | 0 <= k < |groups| - 1 :: groups[k] >= 128;
      if Group(groups) {
        forall k | offset <= k < end - 1 ensures b[k] >= 128 {
          assert groups[k - offset] >= 128;
        }
      }
    }
  }

  // ---------------------------------------------------------------- fields

  /** The value of a field lies at a place and ends at another. */
  ghost predicate Lies(b: seq<Byte>, middle: nat, f: Field, end: nat) {
    match f
    case Number(_, value) => VarintAt(b, middle) == Some((value, end))
    case Fixed64(_, payload) => end == middle + 8 <= |b| && payload == b[middle..end]
    case Fixed32(_, payload) => end == middle + 4 <= |b| && payload == b[middle..end]
    case Block(_, payload) =>
      exists start: nat :: VarintAt(b, middle) == Some((|payload|, start))
                           && start + |payload| == end <= |b| && payload == b[start..end]
  }

  /** The number of the wire type that follows a field's number in its tag. */
  function WireType(f: Field): nat {
    if f.Number? then 0 else if f.Fixed64? then 1 else if f.Block? then 2 else 5
  }

  lemma ValueExact(b: seq<Byte>, middle: nat, f: Field, end: nat)
    ensures ValueAt(b, middle, f.id, WireType(f)) == Some((f, end)) <==> Lies(b, middle, f, end)
  {
    if f.Block? && Lies(b, middle, f, end) {
      var start: nat :| VarintAt(b, middle) == Some((|f.payload|, start))
                        && start + |f.payload| == end <= |b| && f.payload == b[start..end];
    }
  }

  lemma TagExact(tag: nat, id: nat, wire: nat)
    requires wire < 8
    ensures tag / 8 == id && tag % 8 == wire <==> tag == 8 * id + wire
  {
  }

  /** A field is read at a place if and only if a tag stands there, its number at least one, and its
      value lies behind the tag: a varint, eight bytes, a counted block or four bytes, and nothing of
      any other wire type. */
  lemma FieldExact(b: seq<Byte>, offset: nat, f: Field, end: nat)
    ensures FieldAt(b, offset) == Some((f, end)) <==>
            f.id >= 1 && exists middle: nat ::
              VarintAt(b, offset) == Some((8 * f.id + WireType(f), middle)) && Lies(b, middle, f, end)
  {
    var tag := VarintAt(b, offset);
    if tag.Some? {
      TagExact(tag.value.0, f.id, WireType(f));
      ValueExact(b, tag.value.1, f, end);
    }
  }

  // ---------------------------------------------------------------- messages

  /** The fields lie one behind the other, from the first of these places to the last. */
  ghost predicate Chain(b: seq<Byte>, fs: seq<Field>, ends: seq<nat>) {
    && |ends| == |fs| + 1
    && forall i | 0 <= i < |fs| :: FieldAt(b, ends[i]) == Some((fs[i], ends[i + 1]))
  }

  lemma {:induction false} ChainReads(b: seq<Byte>, offset: nat, fs: seq<Field>, ends: seq<nat>)
    requires offset <= |b| && Chain(b, fs, ends) && ends[0] == offset && ends[|fs|] == |b|
    ensures FieldsFrom(b, offset) == Some(fs)
    decreases |fs|
  {
    if fs != [] {
      assert FieldAt(b, ends[0]) == Some((fs[0], ends[1]));
      ChainReads(b, ends[1], fs[1..], ends[1..]);
      assert fs == [fs[0]] + fs[1..];
    }
  }

  lemma {:induction false} ReadsChain(b: seq<Byte>, offset: nat, fs: seq<Field>) returns (ends: seq<nat>)
    requires offset <= |b| && FieldsFrom(b, offset) == Some(fs)
    ensures Chain(b, fs, ends) && ends[0] == offset && ends[|fs|] == |b|
    decreases |b| - offset
  {
    if offset == |b| {
      ends := [offset];
    } else {
      var first := FieldAt(b, offset).value;
      var rest := ReadsChain(b, first.1, fs[1..]);
      ends := [offset] + rest;
      forall i | 0 <= i < |fs| ensures FieldAt(b, ends[i]) == Some((fs[i], ends[i + 1])) {
        if i > 0 { assert FieldAt(b, rest[i - 1]) == Some((fs[1..][i - 1], rest[i])); }
      }
    }
  }

  /** A message is read as some fields if and only if they lie in it one behind the other, from its
      first byte to its last. */
  lemma MessageExact(b: seq<Byte>, fs: seq<Field>)
    ensures Fields(b) == Some(fs) <==> exists ends :: Chain(b, fs, ends) && ends[0] == 0 && ends[|fs|] == |b|
  {
    if Fields(b) == Some(fs) {
      var ends := ReadsChain(b, 0, fs);
    }
    if ends :| Chain(b, fs, ends) && ends[0] == 0 && ends[|fs|] == |b| {
      ChainReads(b, 0, fs, ends);
    }
  }
}
