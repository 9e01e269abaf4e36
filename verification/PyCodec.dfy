// pyrcllite's own CDR writer and reader. Every method is specified by the schema encoder and decoder of the C++ side.
module PyCodec {
  import opened Bytes
  import opened Schema
  import opened Encoding
  import opened Decoding
  import opened BulkRead
  import opened Wrappers
  import Cdr

  // The ranges struct.pack accepts; a float64 is its bit pattern, a str its UTF-8 octets.
  type int32 = v: int | -0x8000_0000 <= v < 0x8000_0000
  type uint32 = v: int | 0 <= v < U32_LIMIT
  type float64 = v: int | 0 <= v < U64_LIMIT

  /** `-(offset) % alignment`, Python's remainder, with literal divisors. */
  function PyPad(offset: nat, alignment: nat): nat
    requires IsAlignment(alignment)
  {
    var behind: int := offset;
    if alignment == 1 then 0
    else if alignment == 2 then (-behind) % 2
    else if alignment == 4 then (-behind) % 4
    else (-behind) % 8
  }

  lemma NegatedMod2(x: int)
    ensures (-x) % 2 == (2 - x % 2) % 2
  {
    var q, r := x / 2, x % 2;
    assert x == 2 * q + r;
    if r == 0 {
      assert -x == 2 * (-q);
    } else {
      assert -x == 2 * (-1 - q) + (2 - r);
    }
  }

  lemma NegatedMod4(x: int)
    ensures (-x) % 4 == (4 - x % 4) % 4
  {
    var q, r := x / 4, x % 4;
    assert x == 4 * q + r;
    if r == 0 {
      assert -x == 4 * (-q);
    } else {
      assert -x == 4 * (-1 - q) + (4 - r);
    }
  }

  lemma NegatedMod8(x: int)
    ensures (-x) % 8 == (8 - x % 8) % 8
  {
    var q, r := x / 8, x % 8;
    assert x == 8 * q + r;
    if r == 0 {
      assert -x == 8 * (-q);
    } else {
      assert -x == 8 * (-1 - q) + (8 - r);
    }
  }

  lemma PyPadIsPad(offset: nat, alignment: nat)
    requires IsAlignment(alignment)
    ensures PyPad(offset, alignment) == Pad(offset, alignment)
  {
    if alignment == 2 {
      NegatedMod2(offset);
    } else if alignment == 4 {
      NegatedMod4(offset);
    } else if alignment == 8 {
      NegatedMod8(offset);
    }
  }

  /** Two's complement, what "<i" packs: a negative number is 2^32 below its bit pattern, any other is its own. */
  function PackInt32(v: int32): (bits: nat)
    ensures bits < U32_LIMIT
    ensures bits == v || bits == v + 0x1_0000_0000
  {
    if v < 0 then v + U32_LIMIT else v
  }

  function UnpackInt32(bits: nat): (v: int32)
    requires bits < U32_LIMIT
    ensures PackInt32(v) == bits
  {
    if bits < 0x8000_0000 then bits else bits - U32_LIMIT
  }

  function DoubleValues(vs: seq<float64>): (r: seq<Value>)
    ensures |r| == |vs| && TypedAll(Primitive(Float64), r)
  {
    Pow256Values();
    seq(|vs|, i requires 0 <= i < |vs| => Bits(vs[i]))
  }

  function PackDoubles(vs: seq<float64>): seq<byte> {
    if vs == [] then [] else LittleEndian(vs[0], 8) + PackDoubles(vs[1..])
  }

  lemma {:induction false} PackedDoublesAreMemory(vs: seq<float64>)
    ensures PackDoubles(vs) == Memory(Float64, DoubleValues(vs))
  {
    hide LittleEndian;
    if vs != [] {
      assert DoubleValues(vs)[1..] == DoubleValues(vs[1..]);
      PackedDoublesAreMemory(vs[1..]);
    }
  }

  function UnpackDoubles(n: nat, raw: seq<byte>): (vs: seq<float64>)
    requires |raw| == n * 8
    ensures |vs| == n
  {
    if n == 0 then []
    else
      Pow256Values();
      [FromLittleEndian(raw[..8])] + UnpackDoubles(n - 1, raw[8..])
  }

  lemma {:induction false} UnpackedDoublesAreMemory(n: nat, raw: seq<byte>)
    requires |raw| == n * 8
    ensures DoubleValues(UnpackDoubles(n, raw)) == FromMemory(Float64, n, raw)
  {
    hide FromLittleEndian;
    if n > 0 {
      UnpackedDoublesAreMemory(n - 1, raw[8..]);
    }
  }

  function ByteValues(bs: seq<byte>): (r: seq<Value>)
    ensures |r| == |bs| && TypedAll(Primitive(UInt8), r)
  {
    Pow256Values();
    seq(|bs|, i requires 0 <= i < |bs| => Bits(bs[i]))
  }

  lemma {:induction false} BytesAreMemory(bs: seq<byte>)
    ensures Memory(UInt8, ByteValues(bs)) == bs
  {
    if bs != [] {
      assert ByteValues(bs)[1..] == ByteValues(bs[1..]);
      assert LittleEndian(bs[0], 1) == [bs[0]];
      BytesAreMemory(bs[1..]);
    }
  }

  lemma {:induction false} MemoryIsBytes(n: nat, raw: seq<byte>)
    requires |raw| == n
    ensures FromMemory(UInt8, n, raw) == ByteValues(raw)
  {
    if n > 0 {
      assert FromLittleEndian(raw[..1]) == raw[0] by { assert raw[..1][1..] == []; }
      MemoryIsBytes(n - 1, raw[1..]);
    }
  }

  class PyWriter {
    var buf: seq<byte>

    predicate Valid()
      reads this
    {
      |buf| >= 4
    }

    constructor ()
      ensures Valid() && buf == Cdr.HEADER && buf == [0, 1, 0, 0]
    {
      buf := Cdr.HEADER;
    }

    method Align(alignment: nat)
      requires Valid() && IsAlignment(alignment)
      modifies this
      ensures Valid() && buf == old(buf) + Zeros(Pad(|old(buf)| - 4, alignment))
    {
      PyPadIsPad(|buf| - 4, alignment);
      buf := buf + Zeros(PyPad(|buf| - 4, alignment));
    }

    method Boolean(value: bool)
      requires Valid()
      modifies this
      ensures Valid() && buf == old(buf) + EncPrim(Bool, if value then 1 else 0, |old(buf)| - 4)
    {
      assert Zeros(0) == [];
      assert LittleEndian(1, 1) == [1] && LittleEndian(0, 1) == [0];
      buf := buf + if value then [1] else [0];
    }

    method Byte(value: byte)
      requires Valid()
      modifies this
      ensures Valid() && buf == old(buf) + EncPrim(UInt8, value, |old(buf)| - 4)
    {
      assert Zeros(0) == [];
      buf := buf + LittleEndian(value, 1);
    }

    method Int32(value: int32)
      requires Valid()
      modifies this
      ensures Valid() && buf == old(buf) + EncPrim(Schema.Int32, PackInt32(value), |old(buf)| - 4)
    {
      hide LittleEndian, Pad;
      Align(4);
      buf := buf + LittleEndian(PackInt32(value), 4);
    }

    method UInt32(value: uint32)
      requires Valid()
      modifies this
      ensures Valid() && buf == old(buf) + EncPrim(Schema.UInt32, value, |old(buf)| - 4)
    {
      hide LittleEndian, Pad;
      Align(4);
      buf := buf + LittleEndian(value, 4);
    }

    method Float64(value: float64)
      requires Valid()
      modifies this
      ensures Valid() && buf == old(buf) + EncPrim(Schema.Float64, value, |old(buf)| - 4)
    {
      hide LittleEndian, Pad;
      Align(8);
      buf := buf + LittleEndian(value, 8);
    }

    method String(raw: seq<byte>)
      requires Valid() && |raw| + 1 < U32_LIMIT
      modifies this
      ensures Valid() && buf == old(buf) + EncText(raw, |old(buf)| - 4)
    {
      hide LittleEndian, Pad;
      UInt32(|raw| + 1);
      buf := buf + (raw + [0]);
    }

    /** `_pad(4)` and the length, shared by both sequence writers. */
    method Count(n: uint32)
      requires Valid()
      modifies this
      ensures Valid() && buf == old(buf) + EncPrim(Schema.UInt32, n, |old(buf)| - 4)
    {
      hide EncPrim, Pad, Zeros;
      UnalignedPrim(Schema.UInt32, n, |buf| - 4);
      Align(4);
      UInt32(n);
    }

    method ByteSequence(value: seq<byte>)
      requires Valid() && |value| < U32_LIMIT
      modifies this
      ensures Valid()
      ensures buf == old(buf) + EncMember(Sequence, Primitive(UInt8), ByteValues(value), |old(buf)| - 4)
    {
      hide EncPrim, EncElems, ByteValues, Memory, Pad;
      ghost var before := buf;
      Count(|value|);
      ghost var off := |buf| - 4;
      buf := buf + value;
      BytesAreMemory(value);
      assert Pad(off, SizeOf(UInt8)) == 0 by { PadAligns(off, 1); }
      BulkFromAligned(UInt8, ByteValues(value), off);
      ConcatAssociates(before, EncPrim(Schema.UInt32, |value|, |before| - 4), value);
    }

    /** One alignment and one pack, unless the list is empty. */
    method Doubles(values: seq<float64>)
      requires Valid()
      modifies this
      ensures Valid()
      ensures buf == old(buf) + EncElems(Primitive(Schema.Float64), DoubleValues(values), |old(buf)| - 4)
    {
      hide DoubleValues, Memory, Pad, PackDoubles;
      if values != [] {
        ghost var before := buf;
        Align(8);
        buf := buf + PackDoubles(values);
        PackedDoublesAreMemory(values);
        BulkIsPerElement(Schema.Float64, DoubleValues(values), |before| - 4);
        ConcatAssociates(before, Zeros(Pad(|before| - 4, 8)), PackDoubles(values));
      }
    }

    method DoubleSequence(values: seq<float64>)
      requires Valid() && |values| < U32_LIMIT
      modifies this
      ensures Valid()
      ensures buf == old(buf) + EncMember(Sequence, Primitive(Schema.Float64), DoubleValues(values), |old(buf)| - 4)
    {
      hide DoubleValues, EncElems, EncPrim, Pad;
      ghost var before := buf;
      Count(|values|);
      ghost var head := EncPrim(Schema.UInt32, |values|, |before| - 4);
      Doubles(values);
      ConcatAssociates(before, head, EncElems(Primitive(Schema.Float64), DoubleValues(values), |before| - 4 + |head|));
    }
  }

  /** A list longer than the remaining octets, which the C++ guard rejects, makes the Python take fail. */
  lemma OverlongListFails(n: nat, bs: seq<byte>, pos: nat)
    requires 4 <= pos <= |bs| && n > |bs| - pos
    ensures !DecMember(Array(n), Primitive(Float64), bs, pos).Ok?
  {
    hide Pad, DecPrim, FromMemory;
    var q := pos + Pad(pos - 4, SizeOf(Float64));
    assert Pad(q - 4, SizeOf(Float64)) == 0 by { PadAligns(pos - 4, 8); }
    if q <= |bs| {
      BulkReadFromAligned(Float64, n, bs, q);
    }
  }

  /** Behind a non-empty list, the array reading and the sequence reading of the doubles coincide. */
  lemma ListReadAsArray(n: nat, bs: seq<byte>, pos: nat)
    requires 4 <= pos <= |bs| && n > 0
    ensures DecMember(Array(n), Primitive(Float64), bs, pos) == DecElems(Primitive(Float64), n, bs, pos)
  {
    hide Pad, DecPrim, DecElems;
    AlignFirst(Float64, n, bs, pos);
  }

  /** Reading methods return None where Python raises; the reader is then not used again. */
  class PyReader {
    const data: seq<byte>
    var pos: nat

    predicate Valid()
      reads this
    {
      4 <= pos <= |data|
    }

    constructor (data: seq<byte>)
      requires Cdr.OpenError(data) == None
      ensures Valid() && this.data == data && pos == 4
    {
      this.data := data;
      pos := 4;
    }

    method Align(alignment: nat) returns (ok: bool)
      requires Valid() && IsAlignment(alignment)
      modifies this
      ensures pos == old(pos) + Pad(old(pos) - 4, alignment) && ok == (pos <= |data|)
    {
      PyPadIsPad(pos - 4, alignment);
      pos := pos + PyPad(pos - 4, alignment);
      ok := pos <= |data|;
    }

    method Take(size: nat) returns (chunk: Option<seq<byte>>)
      requires Valid()
      modifies this
      ensures Valid()
      ensures match DecTake(size, data, old(pos))
              case Ok(raw, q) => chunk == Some(raw) && pos == q
              case _ => chunk == None
    {
      if pos + size > |data| {
        return None;
      }
      chunk := Some(data[pos..pos + size]);
      pos := pos + size;
    }

    /** The aligned take that every fixed-size read is made of. */
    method TakeAligned(p: Prim) returns (chunk: Option<seq<byte>>)
      requires Valid()
      modifies this
      ensures chunk.None? <==> !DecPrim(p, data, old(pos)).Ok?
      ensures chunk.Some? ==> Valid() && |chunk.value| == SizeOf(p)
      ensures chunk.Some? ==> DecPrim(p, data, old(pos)) == Ok(FromRaw(p, chunk.value), pos)
    {
      hide Pad, SizeOf, FromRaw;
      var ok := Align(SizeOf(p));
      if !ok {
        return None;
      }
      chunk := Take(SizeOf(p));
    }

    method Boolean() returns (r: Option<bool>)
      requires Valid()
      modifies this
      ensures r.None? <==> !DecPrim(Bool, data, old(pos)).Ok?
      ensures r.Some? ==> Valid() && DecPrim(Bool, data, old(pos)) == Ok(Bits(if r.value then 1 else 0), pos)
    {
      var chunk := Take(1);
      if chunk.None? {
        return None;
      }
      assert FromLittleEndian(chunk.value) == chunk.value[0] by { assert chunk.value[1..] == []; }
      r := Some(chunk.value != [0]);
    }

    method Byte() returns (r: Option<byte>)
      requires Valid()
      modifies this
      ensures r.None? <==> !DecPrim(UInt8, data, old(pos)).Ok?
      ensures r.Some? ==> Valid() && DecPrim(UInt8, data, old(pos)) == Ok(Bits(r.value), pos)
    {
      var chunk := Take(1);
      if chunk.None? {
        return None;
      }
      assert FromLittleEndian(chunk.value) == chunk.value[0] by { assert chunk.value[1..] == []; }
      r := Some(chunk.value[0]);
    }

    method Int32() returns (r: Option<int32>)
      requires Valid()
      modifies this
      ensures r.None? <==> !DecPrim(Schema.Int32, data, old(pos)).Ok?
      ensures r.Some? ==> Valid() && DecPrim(Schema.Int32, data, old(pos)) == Ok(Bits(PackInt32(r.value)), pos)
    {
      Pow256Values();
      var chunk := TakeAligned(Schema.Int32);
      if chunk.None? {
        return None;
      }
      r := Some(UnpackInt32(FromLittleEndian(chunk.value)));
    }

    method UInt32() returns (r: Option<uint32>)
      requires Valid()
      modifies this
      ensures r.None? <==> !DecPrim(Schema.UInt32, data, old(pos)).Ok?
      ensures r.Some? ==> Valid() && DecPrim(Schema.UInt32, data, old(pos)) == Ok(Bits(r.value), pos)
    {
      Pow256Values();
      var chunk := TakeAligned(Schema.UInt32);
      if chunk.None? {
        return None;
      }
      r := Some(FromLittleEndian(chunk.value));
    }

    method Float64() returns (r: Option<float64>)
      requires Valid()
      modifies this
      ensures r.None? <==> !DecPrim(Schema.Float64, data, old(pos)).Ok?
      ensures r.Some? ==> Valid() && DecPrim(Schema.Float64, data, old(pos)) == Ok(Bits(r.value), pos)
    {
      Pow256Values();
      var chunk := TakeAligned(Schema.Float64);
      if chunk.None? {
        return None;
      }
      r := Some(FromLittleEndian(chunk.value));
    }

    method String() returns (r: Option<seq<byte>>)
      requires Valid()
      modifies this
      ensures r.None? <==> !DecText(data, old(pos)).Ok?
      ensures r.Some? ==> Valid() && DecText(data, old(pos)) == Ok(r.value, pos)
    {
      hide DecPrim;
      var length := UInt32();
      if length.None? || length.value == 0 {
        return None;
      }
      var chunk := Take(length.value);
      if chunk.None? {
        return None;
      }
      var len := |chunk.value|;
      assert chunk.value[..len - 1] == data[pos - len..pos - 1];
      r := Some(chunk.value[..len - 1]);
    }

    /** `_pad(4)` and the length. */
    method Count() returns (r: Option<uint32>)
      requires Valid()
      modifies this
      ensures r.None? <==> !DecCount(data, old(pos)).Ok?
      ensures r.Some? ==> Valid() && DecCount(data, old(pos)) == Ok(r.value, pos)
    {
      hide DecPrim, Pad;
      UnalignedPrimRead(Schema.UInt32, data, pos);
      var ok := Align(4);
      if !ok {
        return None;
      }
      r := UInt32();
    }

    method ByteSequence() returns (r: Option<seq<byte>>)
      requires Valid()
      modifies this
      ensures r.None? <==> !DecMember(Sequence, Primitive(UInt8), data, old(pos)).Ok?
      ensures r.Some? ==> Valid() && DecMember(Sequence, Primitive(UInt8), data, old(pos)) == Ok(ByteValues(r.value), pos)
    {
      hide DecPrim, Pad, DecElems, FromMemory, ByteValues;
      var length := Count();
      if length.None? {
        return None;
      }
      assert Pad(pos - 4, SizeOf(UInt8)) == 0 by { PadAligns(pos - 4, 1); }
      BulkReadFromAligned(UInt8, length.value, data, pos);
      r := Take(length.value);
      if r.Some? {
        MemoryIsBytes(length.value, r.value);
      }
    }

    /** `count` doubles at the next multiple of 8; pads even when `count` is zero. */
    method Doubles(count: nat) returns (r: Option<seq<float64>>)
      requires Valid()
      modifies this
      ensures r.None? <==> !DecMember(Array(count), Primitive(Schema.Float64), data, old(pos)).Ok?
      ensures r.Some? ==> Valid() && |r.value| == count
      ensures r.Some? ==> DecMember(Array(count), Primitive(Schema.Float64), data, old(pos)) == Ok(DoubleValues(r.value), pos)
    {
      hide DecPrim, Pad, DecElems, FromMemory, DoubleValues;
      var ok := Align(8);
      if !ok {
        return None;
      }
      assert Pad(pos - 4, SizeOf(Schema.Float64)) == 0 by { PadAligns(old(pos) - 4, 8); }
      BulkReadFromAligned(Schema.Float64, count, data, pos);
      var raw := Take(count * 8);
      if raw.None? {
        return None;
      }
      UnpackedDoublesAreMemory(count, raw.value);
      r := Some(UnpackDoubles(count, raw.value));
    }

    /** Unlike the C++ reader, aligns to 8 behind an empty list too - or raises if that is past the end. */
    method DoubleSequence() returns (r: Option<seq<float64>>)
      requires Valid()
      modifies this
      ensures r.Some? ==> Valid()
      ensures match DecMember(Sequence, Primitive(Schema.Float64), data, old(pos))
              case Ok(values, q) =>
                var settled := if values == [] then q + Pad(q - 4, 8) else q;
                if settled > |data| then r.None? else r.Some? && DoubleValues(r.value) == values && pos == settled
              case _ => r.None?
    {
      hide DecPrim, Pad, FromMemory, DoubleValues, DecCount;
      var count := Count();
      if count.None? {
        return None;
      }
      var n := count.value;
      if n > |data| - pos {
        OverlongListFails(n, data, pos);
      } else if n > 0 {
        ListReadAsArray(n, data, pos);
      }
      r := Doubles(n);
    }
  }
}
