/** The canonical protobuf encoding, and that reading inverts it. */
module ProtoEncoding {
  import opened Options
  import opened ProtoReader

  function EncodeVarint(n: nat): (r: seq<Byte>)
    ensures |r| >= 1
  {
    if n < 128 then [n] else [128 + n % 128] + EncodeVarint(n / 128)
  }

  function Pow128(n: nat): nat {
    if n == 0 then 1 else 128 * Pow128(n - 1)
  }

  lemma {:induction false} VarintLength(n: nat, k: nat)
    requires n < Pow128(k) && k >= 1
    ensures |EncodeVarint(n)| <= k
  {
    if n >= 128 {
      assert Pow128(1) == 128 * Pow128(0);
      assert n / 128 < Pow128(k - 1);
      VarintLength(n / 128, k - 1);
    }
  }

  /** The piece lies in the bytes at the offset. */
  predicate Holds(b: seq<Byte>, offset: nat, piece: seq<Byte>) {
    offset + |piece| <= |b| && b[offset..offset + |piece|] == piece
  }

  lemma HoldsParts(b: seq<Byte>, offset: nat, first: seq<Byte>, second: seq<Byte>)
    requires Holds(b, offset, first + second)
    ensures Holds(b, offset, first) && Holds(b, offset + |first|, second)
  {
    assert b[offset..offset + |first|] == (first + second)[..|first|];
    assert b[offset + |first|..offset + |first| + |second|] == (first + second)[|first|..];
  }

  lemma {:induction false} GroupsInvert(b: seq<Byte>, offset: nat, limit: nat, n: nat)
    requires Holds(b, offset, EncodeVarint(n)) && |EncodeVarint(n)| <= limit
    ensures Groups(b, offset, limit) == Some((n, offset + |EncodeVarint(n)|))
    decreases n
  {
    if n < 128 {
      assert b[offset] == EncodeVarint(n)[0];
    } else {
      HoldsParts(b, offset, [128 + n % 128], EncodeVarint(n / 128));
      assert b[offset] == b[offset..offset + 1][0] == 128 + n % 128;
      GroupsInvert(b, offset + 1, limit - 1, n / 128);
    }
  }

  /** Base 128 varints: every number the program can hold is read back from its encoding. */
  lemma VarintInverts(b: seq<Byte>, offset: nat, n: nat)
    requires n <= MAX_SAFE && Holds(b, offset, EncodeVarint(n))
    ensures VarintAt(b, offset) == Some((n, offset + |EncodeVarint(n)|))
  {
    assert Pow128(8) == 128 * (128 * (128 * (128 * (128 * (128 * (128 * (128 * Pow128(0))))))));
    VarintLength(n, 8);
    GroupsInvert(b, offset, MAX_VARINT_BYTES, n);
  }

  function TagOf(f: Field): nat {
    f.id * 8 + WireOf(f)
  }

  /** Fields the encoding can carry and the program can hold. */
  predicate Writable(f: Field) {
    && 1 <= f.id && TagOf(f) <= MAX_SAFE
    && match f
       case Number(_, value) => value <= MAX_SAFE
       case Block(_, payload) => |payload| <= MAX_SAFE
       case Fixed64(_, payload) => |payload| == 8
       case Fixed32(_, payload) => |payload| == 4
  }

  function EncodeValue(f: Field): seq<Byte> {
    match f
    case Number(_, value) => EncodeVarint(value)
    case Block(_, payload) => EncodeVarint(|payload|) + payload
    case Fixed64(_, payload) => payload
    case Fixed32(_, payload) => payload
  }

  function EncodeField(f: Field): seq<Byte> {
    EncodeVarint(TagOf(f)) + EncodeValue(f)
  }

  function Pieces(fs: seq<Field>): (pieces: seq<seq<Byte>>)
    ensures |pieces| == |fs| && forall i | 0 <= i < |fs| :: pieces[i] == EncodeField(fs[i])
  {
    seq(|fs|, i requires 0 <= i < |fs| => EncodeField(fs[i]))
  }

  function Concat(pieces: seq<seq<Byte>>): seq<Byte> {
    if pieces == [] then [] else pieces[0] + Concat(pieces[1..])
  }

  function EncodeFields(fs: seq<Field>): seq<Byte> {
    Concat(Pieces(fs))
  }

  lemma ValueInverts(b: seq<Byte>, offset: nat, f: Field)
    requires Writable(f) && Holds(b, offset, EncodeValue(f))
    ensures ValueAt(b, offset, f.id, WireOf(f)) == Some((f, offset + |EncodeValue(f)|))
  {
    match f
    case Number(_, value) => VarintInverts(b, offset, value);
    case Block(_, payload) =>
      HoldsParts(b, offset, EncodeVarint(|payload|), payload);
      VarintInverts(b, offset, |payload|);
    case _ =>
  }

  lemma TagParts(id: nat, wire: nat)
    requires wire < 8
    ensures (id * 8 + wire) / 8 == id && (id * 8 + wire) % 8 == wire
  {
  }

  lemma FieldSplits(b: seq<Byte>, offset: nat, id: nat, wire: nat, middle: nat, r: (Field, nat))
    requires wire < 8 && id >= 1 && VarintAt(b, offset) == Some((id * 8 + wire, middle))
    requires ValueAt(b, middle, id, wire) == Some(r)
    ensures FieldAt(b, offset) == Some(r)
  {
    TagParts(id, wire);
  }

  lemma TagInverts(b: seq<Byte>, offset: nat, f: Field)
    requires TagOf(f) <= MAX_SAFE && Holds(b, offset, EncodeField(f))
    ensures VarintAt(b, offset) == Some((TagOf(f), offset + |EncodeVarint(TagOf(f))|))
    ensures Holds(b, offset + |EncodeVarint(TagOf(f))|, EncodeValue(f))
  {
    HoldsParts(b, offset, EncodeVarint(TagOf(f)), EncodeValue(f));
    VarintInverts(b, offset, TagOf(f));
  }

  lemma FieldInverts(b: seq<Byte>, offset: nat, f: Field)
    requires Writable(f) && Holds(b, offset, EncodeField(f))
    ensures FieldAt(b, offset) == Some((f, offset + |EncodeField(f)|))
  {
    TagInverts(b, offset, f);
    var middle := offset + |EncodeVarint(TagOf(f))|;
    ValueInverts(b, middle, f);
    FieldSplits(b, offset, f.id, WireOf(f), middle, (f, middle + |EncodeValue(f)|));
  }

  lemma FieldsSplit(b: seq<Byte>, offset: nat, f: Field, middle: nat, rest: seq<Field>)
    requires offset < middle <= |b| && FieldAt(b, offset) == Some((f, middle))
    requires FieldsFrom(b, middle) == Some(rest)
    ensures FieldsFrom(b, offset) == Some([f] + rest)
  {
  }

  predicate AllWritable(fs: seq<Field>) {
    forall i | 0 <= i < |fs| :: Writable(fs[i])
  }

  /** Wherever the piece lies in the bytes, the field is read there. */
  ghost predicate ReadsAs(b: seq<Byte>, f: Field, piece: seq<Byte>) {
    forall offset: nat | Holds(b, offset, piece) :: FieldAt(b, offset) == Some((f, offset + |piece|))
  }

  ghost predicate Reads(b: seq<Byte>, fs: seq<Field>, pieces: seq<seq<Byte>>) {
    |pieces| == |fs| && forall i | 0 <= i < |fs| :: ReadsAs(b, fs[i], pieces[i])
  }

  lemma ReadsRest(b: seq<Byte>, fs: seq<Field>, pieces: seq<seq<Byte>>)
    requires Reads(b, fs, pieces) && fs != []
    ensures Reads(b, fs[1..], pieces[1..])
  {
  }

  lemma SuffixParts(b: seq<Byte>, offset: nat, first: seq<Byte>, second: seq<Byte>)
    requires offset <= |b| && b[offset..] == first + second
    ensures Holds(b, offset, first) && offset + |first| <= |b| && b[offset + |first|..] == second
  {
    assert b[offset..][..|first|] == first && b[offset..][|first|..] == second;
  }

  /** The first piece is read, and the others follow. */
  lemma PieceHere(b: seq<Byte>, offset: nat, fs: seq<Field>, pieces: seq<seq<Byte>>) returns (next: nat)
    requires Reads(b, fs, pieces) && fs != []
    requires offset <= |b| && b[offset..] == Concat(pieces)
    ensures offset < next <= |b| && FieldAt(b, offset) == Some((fs[0], next))
    ensures b[next..] == Concat(pieces[1..]) && Reads(b, fs[1..], pieces[1..])
  {
    next := offset + |pieces[0]|;
    SuffixParts(b, offset, pieces[0], Concat(pieces[1..]));
    assert ReadsAs(b, fs[0], pieces[0]);
    ReadsRest(b, fs, pieces);
  }

  lemma {:induction false} PiecesRead(b: seq<Byte>, offset: nat, fs: seq<Field>, pieces: seq<seq<Byte>>)
    requires Reads(b, fs, pieces)
    requires offset <= |b| && b[offset..] == Concat(pieces)
    ensures FieldsFrom(b, offset) == Some(fs)
    decreases |fs|
  {
    if fs == [] {
      NoneLeft(b, offset);
    } else {
      var next := PieceHere(b, offset, fs, pieces);
      PiecesRead(b, next, fs[1..], pieces[1..]);
      FieldsSplit(b, offset, fs[0], next, fs[1..]);
      assert fs == [fs[0]] + fs[1..];
    }
  }

  lemma NoneLeft(b: seq<Byte>, offset: nat)
    requires offset <= |b| && b[offset..] == []
    ensures FieldsFrom(b, offset) == Some([])
  {
    assert |b[offset..]| == 0;
  }

  lemma PieceInverts(b: seq<Byte>, offset: nat, f: Field, piece: seq<Byte>)
    requires Writable(f) && piece == EncodeField(f) && Holds(b, offset, piece)
    ensures FieldAt(b, offset) == Some((f, offset + |piece|))
  {
    FieldInverts(b, offset, f);
  }

  lemma PiecesInvert(b: seq<Byte>, fs: seq<Field>)
    requires AllWritable(fs)
    ensures Reads(b, fs, Pieces(fs))
  {
    var pieces := Pieces(fs);
    forall i | 0 <= i < |fs| ensures ReadsAs(b, fs[i], pieces[i]) {
      forall offset: nat | Holds(b, offset, pieces[i])
        ensures FieldAt(b, offset) == Some((fs[i], offset + |pieces[i]|)) {
        PieceInverts(b, offset, fs[i], pieces[i]);
      }
    }
  }

  /** Message structure: reading a message gives back the fields it was encoded from. */
  lemma FieldsInvert(fs: seq<Field>)
    requires AllWritable(fs)
    ensures Fields(EncodeFields(fs)) == Some(fs)
  {
    PiecesInvert(EncodeFields(fs), fs);
    assert EncodeFields(fs)[0..] == Concat(Pieces(fs));
    PiecesRead(EncodeFields(fs), 0, fs, Pieces(fs));
  }

  lemma FieldWritable(b: seq<Byte>, offset: nat)
    requires FieldAt(b, offset).Some?
    ensures |b| <= MAX_SAFE ==> Writable(FieldAt(b, offset).value.0)
  {
    var tag := VarintAt(b, offset).value;
    assert tag.0 / 8 * 8 + tag.0 % 8 == tag.0;
  }

  lemma {:induction false} FieldsWritable(b: seq<Byte>, offset: nat)
    requires |b| <= MAX_SAFE && offset <= |b| && FieldsFrom(b, offset).Some?
    ensures AllWritable(FieldsFrom(b, offset).value)
    decreases |b| - offset
  {
    if offset < |b| {
      FieldWritable(b, offset);
      FieldsWritable(b, FieldAt(b, offset).value.1);
    }
  }

  /** Whatever a message looked like, writing its fields canonically keeps them. */
  lemma Rewritten(b: seq<Byte>)
    requires |b| <= MAX_SAFE && Fields(b).Some?
    ensures Fields(EncodeFields(Fields(b).value)) == Fields(b)
  {
    FieldsWritable(b, 0);
    FieldsInvert(Fields(b).value);
  }
}
