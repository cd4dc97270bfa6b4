/** Reading protobuf fields from a slice of bytes: what a slice holds, a reader with a moving offset
    that finds it, and the encoding it inverts. */
module ProtoReader {
  import opened Options

  type Byte = b: int | 0 <= b < 256

  /** The largest integer the program's numbers hold exactly. */
  const MAX_SAFE := 0x1F_FFFF_FFFF_FFFF
  const MAX_VARINT_BYTES := 10

  // ---------------------------------------------------------------- what a slice holds

  /** Groups of seven bits, the lowest first, each byte but the last with its high bit set. The
      second part of the result is the offset after the last byte. */
  function Groups(b: seq<Byte>, offset: nat, limit: nat): (r: Option<(nat, nat)>)
    ensures r.Some? ==> offset < r.value.1 <= |b| && r.value.1 <= offset + limit
    decreases |b| - offset
  {
    if limit == 0 || offset >= |b| then None
    else if b[offset] < 128 then Some((b[offset], offset + 1))
    else
      var rest := Groups(b, offset + 1, limit - 1);
      if rest.None? then None else Some((b[offset] - 128 + 128 * rest.value.0, rest.value.1))
  }

  function VarintAt(b: seq<Byte>, offset: nat): (r: Option<(nat, nat)>)
    ensures r.Some? ==> offset < r.value.1 <= |b| && r.value.0 <= MAX_SAFE
  {
    var r := Groups(b, offset, MAX_VARINT_BYTES);
    if r.Some? && r.value.0 <= MAX_SAFE then r else None
  }

  function Advanced(b: seq<Byte>, offset: nat, length: nat): (r: Option<nat>)
    ensures r.Some? ==> offset <= r.value <= |b|
  {
    if offset + length > |b| then None else Some(offset + length)
  }

  function BytesAt(b: seq<Byte>, offset: nat): (r: Option<(seq<Byte>, nat)>)
    ensures r.Some? ==> offset < r.value.1 <= |b| && |r.value.0| < |b| - offset
  {
    var length := VarintAt(b, offset);
    if length.None? then None
    else
      var end := Advanced(b, length.value.1, length.value.0);
      if end.None? then None else Some((b[length.value.1..end.value], end.value))
  }

  datatype Field =
    | Number(id: nat, value: nat)
    | Block(id: nat, payload: seq<Byte>)
    | Fixed64(id: nat, payload: seq<Byte>)
    | Fixed32(id: nat, payload: seq<Byte>)

  function WireOf(f: Field): nat {
    match f
    case Number(_, _) => 0
    case Fixed64(_, _) => 1
    case Block(_, _) => 2
    case Fixed32(_, _) => 5
  }

  /** The value that follows a tag. */
  function ValueAt(b: seq<Byte>, offset: nat, id: nat, wire: nat): (r: Option<(Field, nat)>)
    ensures r.Some? ==> offset <= r.value.1 <= |b| && r.value.0.id == id && WireOf(r.value.0) == wire
  {
    if wire == 0 then
      var v := VarintAt(b, offset);
      if v.None? then None else Some((Number(id, v.value.0), v.value.1))
    else if wire == 1 then
      var end := Advanced(b, offset, 8);
      if end.None? then None else Some((Fixed64(id, b[offset..end.value]), end.value))
    else if wire == 2 then
      var v := BytesAt(b, offset);
      if v.None? then None else Some((Block(id, v.value.0), v.value.1))
    else if wire == 5 then
      var end := Advanced(b, offset, 4);
      if end.None? then None else Some((Fixed32(id, b[offset..end.value]), end.value))
    else None
  }

  /** Every field takes at least the byte of its tag. */
  function FieldAt(b: seq<Byte>, offset: nat): (r: Option<(Field, nat)>)
    ensures r.Some? ==> offset < r.value.1 <= |b|
  {
    var tag := VarintAt(b, offset);
    if tag.None? || tag.value.0 / 8 == 0 then None
    else ValueAt(b, tag.value.1, tag.value.0 / 8, tag.value.0 % 8)
  }

  function FieldsFrom(b: seq<Byte>, offset: nat): Option<seq<Field>>
    requires offset <= |b|
    decreases |b| - offset
  {
    if offset == |b| then Some([])
    else
      var first := FieldAt(b, offset);
      if first.None? then None
      else
        var rest := FieldsFrom(b, first.value.1);
        if rest.None? then None else Some([first.value.0] + rest.value)
  }

  /** The fields of a message. */
  function Fields(b: seq<Byte>): Option<seq<Field>> {
    FieldsFrom(b, 0)
  }

  // ---------------------------------------------------------------- the reader

  /** A number whose low groups have been read already. */
  function Joined(low: nat, scale: nat, rest: Option<(nat, nat)>): Option<(nat, nat)> {
    if rest.None? then None else Some((low + scale * rest.value.0, rest.value.1))
  }

  /** Reading one more group of a number. */
  lemma JoinStep(b: seq<Byte>, offset: nat, limit: nat, low: nat, scale: nat, next: nat)
    requires offset < |b| && limit > 0 && next == low + b[offset] % 128 * scale
    ensures var whole := Joined(low, scale, Groups(b, offset, limit));
      && (whole.Some? ==> whole.value.0 >= next)
      && whole == if b[offset] < 128 then Some((next, offset + 1))
                  else Joined(next, scale * 128, Groups(b, offset + 1, limit - 1))
  {
    var rest := Groups(b, offset + 1, limit - 1);
    GroupPart(b[offset]);
    if b[offset] >= 128 && rest.Some? {
      Regroup(low, scale, b[offset] - 128, rest.value.0);
      AtLeast(next, scale * 128, rest.value.0);
    }
  }

  lemma GroupPart(byte: nat)
    requires byte < 256
    ensures byte % 128 == if byte < 128 then byte else byte - 128
  {
  }

  lemma AtLeast(low: nat, scale: nat, rest: nat)
    ensures low + scale * rest >= low
  {
  }

  lemma Regroup(low: nat, scale: nat, group: nat, rest: nat)
    ensures low + scale * (group + 128 * rest) == (low + group * scale) + scale * 128 * rest
  {
  }

  /** A reader over one slice. A method that returns `None` stands for a throw. */
  class Reader {
    const bytes: seq<Byte>
    var offset: nat

    ghost predicate Valid()
      reads this
    {
      offset <= |bytes|
    }

    constructor (bytes: seq<Byte>)
      ensures Valid() && this.bytes == bytes && offset == 0
    {
      this.bytes := bytes;
      offset := 0;
    }

    predicate AtEnd()
      reads this
    {
      offset == |bytes|
    }

    method ReadByte() returns (r: Option<Byte>)
      requires Valid()
      modifies this
      ensures Valid()
      ensures if old(offset) < |bytes| then r == Some(bytes[old(offset)]) && offset == old(offset) + 1 else r.None?
    {
      if offset >= |bytes| { return None; }
      r := Some(bytes[offset]);
      offset := offset + 1;
    }

    method ReadVarint() returns (r: Option<nat>)
      requires Valid()
      modifies this
      ensures Valid()
      ensures match VarintAt(bytes, old(offset))
              case None => r.None?
              case Some(v) => r == Some(v.0) && offset == v.1
    {
      ghost var start := offset;
      ghost var whole := Groups(bytes, start, MAX_VARINT_BYTES);
      var result: nat, multiplier: nat, index := 0, 1, 0;
      while index < MAX_VARINT_BYTES
        invariant Valid() && 0 <= index <= MAX_VARINT_BYTES && result <= MAX_SAFE
        invariant whole == Joined(result, multiplier, Groups(bytes, offset, MAX_VARINT_BYTES - index))
      {
        ghost var at := offset;
        var byte := ReadByte();
        if byte.None? { return None; }
        ghost var low := result;
        result := result + byte.value % 128 * multiplier;
        JoinStep(bytes, at, MAX_VARINT_BYTES - index, low, multiplier, result);
        if result > MAX_SAFE { return None; }
        if byte.value < 128 { return Some(result); }
        multiplier := multiplier * 128;
        index := index + 1;
      }
      r := None;
    }

    method ReadTag() returns (r: Option<(nat, nat)>)
      requires Valid()
      modifies this
      ensures Valid()
      ensures match VarintAt(bytes, old(offset))
              case None => r.None?
              case Some(v) => if v.0 / 8 == 0 then r.None? else r == Some((v.0 / 8, v.0 % 8)) && offset == v.1
    {
      var tag := ReadVarint();
      if tag.None? || tag.value / 8 == 0 { return None; }
      r := Some((tag.value / 8, tag.value % 8));
    }

    method Advance(length: nat) returns (ok: bool)
      requires Valid()
      modifies this
      ensures Valid()
      ensures match Advanced(bytes, old(offset), length)
              case None => !ok && offset == old(offset)
              case Some(end) => ok && offset == end
    {
      if offset + length > |bytes| { return false; }
      offset := offset + length;
      ok := true;
    }

    method ReadBytes() returns (r: Option<seq<Byte>>)
      requires Valid()
      modifies this
      ensures Valid()
      ensures match BytesAt(bytes, old(offset))
              case None => r.None?
              case Some(v) => r == Some(v.0) && offset == v.1
    {
      var length := ReadVarint();
      if length.None? { return None; }
      var start := offset;
      var ok := Advance(length.value);
      if !ok { return None; }
      r := Some(bytes[start..offset]);
    }

    method Skip(wire: nat) returns (ok: bool)
      requires Valid()
      modifies this
      ensures Valid()
      ensures forall id :: match ValueAt(bytes, old(offset), id, wire)
                           case None => !ok
                           case Some(v) => ok && offset == v.1
    {
      if wire == 0 {
        var v := ReadVarint();
        ok := v.Some?;
      } else if wire == 1 {
        ok := Advance(8);
      } else if wire == 2 {
        var length := ReadVarint();
        if length.None? { return false; }
        ok := Advance(length.value);
      } else if wire == 5 {
        ok := Advance(4);
      } else {
        ok := false;
      }
    }
  }
}
