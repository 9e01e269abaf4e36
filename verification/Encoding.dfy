// The reference encoding: every primitive aligned on its own, relative to the octet after the encapsulation header.
// All functions take the payload offset at which the encoding starts.
module Encoding {
  import opened Bytes
  import opened Schema

  function EncPrim(p: Prim, bits: nat, off: nat): (bs: seq<byte>)
    ensures |bs| == Pad(off, SizeOf(p)) + SizeOf(p)
  {
    Zeros(Pad(off, SizeOf(p))) + LittleEndian(bits, SizeOf(p))
  }

  /** uint32 length including the NUL (cast, hence the remainder), the octets, the NUL. */
  function EncText(s: seq<byte>, off: nat): (bs: seq<byte>)
    ensures |bs| == Pad(off, 4) + 4 + |s| + 1
  {
    EncPrim(UInt32, (|s| + 1) % U32_LIMIT, off) + (s + [0])
  }

  function EncElem(e: Elem, v: Value, off: nat): seq<byte>
    decreases e, 0, 0
  {
    match (e, v)
    case (Primitive(p), Bits(b)) => EncPrim(p, b, off)
    case (Text, Chars(s)) => EncText(s, off)
    case (Nested(fs), Struct(ms)) => EncFields(fs, ms, off)
    case _ => []
  }

  function EncElems(e: Elem, vs: seq<Value>, off: nat): seq<byte>
    decreases e, 1, |vs|
  {
    if vs == [] then []
    else
      var head := EncElem(e, vs[0], off);
      head + EncElems(e, vs[1..], off + |head|)
  }

  /** What precedes the elements: the length of a sequence, the bulk alignment of a primitive array. */
  function EncHead(k: Kind, e: Elem, n: nat, off: nat): seq<byte> {
    match k
    case Scalar => []
    case Sequence => EncPrim(UInt32, n % U32_LIMIT, off)
    case Array(_) => if e.Primitive? then Zeros(Pad(off, WireAlignment(e.prim))) else []
  }

  function EncMember(k: Kind, e: Elem, vs: seq<Value>, off: nat): seq<byte>
    decreases e, 2
  {
    var head := EncHead(k, e, |vs|, off);
    head + EncElems(e, vs, off + |head|)
  }

  function EncFields(fs: Fields, ms: Members, off: nat): seq<byte>
    decreases fs, 0
  {
    match (fs, ms)
    case (Field(k, e, rest), Member(items, tail)) =>
      var head := EncMember(k, e, items, off);
      head + EncFields(rest, tail, off + |head|)
    case _ => []
  }

  /** The octets of a primitive: zeros up to a multiple of its size, then the value, least significant octet first. */
  lemma PrimOctets(p: Prim, bits: nat, off: nat)
    ensures var bs, size := EncPrim(p, bits, off), SizeOf(p);
            var pad := |bs| - size;
            && 0 <= pad < size && (off + pad) % size == 0
            && (forall i :: 0 <= i < pad ==> bs[i] == 0)
            && (forall i :: 0 <= i < size ==> bs[pad + i] == (bits / Pow256(i)) % 256)
  {
    hide Pad, LittleEndian, SizeOf;
    var bs, size := EncPrim(p, bits, off), SizeOf(p);
    var pad := |bs| - size;
    PadIsTheOne(off, size, pad);
    forall i | 0 <= i < size ensures bs[pad + i] == (bits / Pow256(i)) % 256 {
      LittleEndianAt(bits, size, i);
    }
  }

  /** How many octets each primitive takes where nothing has to be padded. */
  lemma PrimWidths(p: Prim, bits: nat)
    ensures |EncPrim(p, bits, 0)| == if p in {Bool, Byte, Char, Int8, UInt8} then 1 else if p in {Int16, UInt16} then 2
                                     else if p in {Int32, UInt32, Float32} then 4 else 8
    ensures WireAlignment(p) == SizeOf(p)
  {
  }

  /** A string on the wire: its count with the NUL in four octets, its octets, and a final zero. */
  lemma TextOctets(s: seq<byte>, off: nat)
    requires |s| + 1 < U32_LIMIT
    ensures var bs := EncText(s, off);
            var at := |bs| - |s| - 1;
            && 4 <= at < 8 && (off + at) % 4 == 0
            && CountAt(bs, at - 4) == |s| + 1
            && (forall i :: 0 <= i < at - 4 ==> bs[i] == 0)
            && bs[at..|bs| - 1] == s && bs[|bs| - 1] == 0
  {
    hide Pad, LittleEndian, FromLittleEndian;
    Pow256Values();
    var bs, pad, count := EncText(s, off), Pad(off, 4), LittleEndian(|s| + 1, 4);
    assert bs == Zeros(pad) + count + s + [0];
    LittleEndianInverse(|s| + 1, 4);
    FourOctets(count);
    PadIsTheOne(off, 4, pad);
    assert bs[pad..pad + 4] == count && bs[pad + 4..|bs| - 1] == s;
  }

  lemma FieldUnfolds(fs: Fields, ms: Members, off: nat, head: seq<byte>, tail: seq<byte>)
    requires fs.Field? && ms.Member?
    requires head == EncMember(fs.kind, fs.elem, ms.items, off) && tail == EncFields(fs.rest, ms.rest, off + |head|)
    ensures EncFields(fs, ms, off) == head + tail
  {
    hide EncMember;
  }

  /** A scalar member is its one element. */
  lemma ScalarMember(e: Elem, items: seq<Value>, off: nat)
    requires |items| == 1
    ensures EncMember(Scalar, e, items, off) == EncElem(e, items[0], off)
  {
    hide EncElem;
    var one := EncElem(e, items[0], off);
    assert items[1..] == [] && EncElems(e, [], off + |one|) == [];
    assert [] + (one + []) == one;
  }

  /** A sequence is its count and its elements; an array of strings or messages is nothing but its elements. */
  lemma MemberHeads(e: Elem, vs: seq<Value>, off: nat)
    requires |vs| < U32_LIMIT
    ensures var count := EncPrim(UInt32, |vs|, off);
            EncMember(Sequence, e, vs, off) == count + EncElems(e, vs, off + |count|)
    ensures !e.Primitive? ==> EncMember(Array(|vs|), e, vs, off) == EncElems(e, vs, off)
  {
    hide EncPrim, EncElems;
    assert [] + EncElems(e, vs, off) == EncElems(e, vs, off);
  }

  // --- the bulk form ---------------------------------------------------------

  /** The contiguous memory of a vector or array of primitives. */
  function Memory(p: Prim, vs: seq<Value>): seq<byte>
    requires TypedAll(Primitive(p), vs)
  {
    if vs == [] then []
    else
      assert TypedElem(Primitive(p), vs[0]);
      LittleEndian(vs[0].bits, SizeOf(p)) + Memory(p, vs[1..])
  }

  lemma AlignedPrim(p: Prim, bits: nat, off: nat)
    requires Pad(off, SizeOf(p)) == 0
    ensures EncPrim(p, bits, off) == LittleEndian(bits, SizeOf(p))
  {
    hide Pad, LittleEndian, SizeOf;
    assert Zeros(0) == [];
  }

  lemma UnalignedPrim(p: Prim, bits: nat, off: nat)
    ensures var pad := Pad(off, SizeOf(p));
            EncPrim(p, bits, off) == Zeros(pad) + EncPrim(p, bits, off + pad)
  {
    hide LittleEndian, Zeros, SizeOf;
    var pad := Pad(off, SizeOf(p));
    assert Pad(off + pad, SizeOf(p)) == 0 by { PadAligns(off, SizeOf(p)); }
    AlignedPrim(p, bits, off + pad);
  }

  /** From an aligned offset, one copy of the memory is the per-element encoding. */
  lemma {:induction false} BulkFromAligned(p: Prim, vs: seq<Value>, off: nat)
    requires TypedAll(Primitive(p), vs)
    requires Pad(off, SizeOf(p)) == 0
    ensures EncElems(Primitive(p), vs, off) == Memory(p, vs)
  {
    hide LittleEndian, Pad, SizeOf, EncPrim;
    if vs != [] {
      assert TypedElem(Primitive(p), vs[0]);
      AlignedPrim(p, vs[0].bits, off);
      StepStaysAligned(off, SizeOf(p));
      BulkFromAligned(p, vs[1..], off + SizeOf(p));
    }
  }

  /** All padding of a run of primitives sits in front of the first one. */
  lemma PadFirst(p: Prim, vs: seq<Value>, off: nat)
    requires vs != [] && vs[0].Bits?
    ensures var pad := Pad(off, SizeOf(p));
            EncElems(Primitive(p), vs, off) == Zeros(pad) + EncElems(Primitive(p), vs, off + pad)
  {
    hide Pad, Zeros, SizeOf, EncPrim;
    var pad := Pad(off, SizeOf(p));
    var head := EncPrim(p, vs[0].bits, off + pad);
    UnalignedPrim(p, vs[0].bits, off);
    ConcatAssociates(Zeros(pad), head, EncElems(Primitive(p), vs[1..], off + pad + |head|));
  }

  /** One alignment and one copy equal the per-element loop, at every start offset. */
  lemma BulkIsPerElement(p: Prim, vs: seq<Value>, off: nat)
    requires TypedAll(Primitive(p), vs) && vs != []
    ensures EncElems(Primitive(p), vs, off) == Zeros(Pad(off, SizeOf(p))) + Memory(p, vs)
  {
    hide Pad, Zeros, SizeOf, EncPrim, EncElems, Memory;
    var pad := Pad(off, SizeOf(p));
    assert vs[0].Bits? by { assert TypedElem(Primitive(p), vs[0]); }
    PadFirst(p, vs, off);
    assert Pad(off + pad, SizeOf(p)) == 0 by { PadAligns(off, SizeOf(p)); }
    BulkFromAligned(p, vs, off + pad);
  }

  lemma ArrayMember(p: Prim, vs: seq<Value>, off: nat)
    ensures var pad := Pad(off, SizeOf(p));
            EncMember(Array(|vs|), Primitive(p), vs, off) == Zeros(pad) + EncElems(Primitive(p), vs, off + pad)
  {
    hide Pad, EncElems, EncPrim, SizeOf, WireAlignment;
    assert EncHead(Array(|vs|), Primitive(p), |vs|, off) == Zeros(Pad(off, SizeOf(p)));
  }

  /** A primitive array is encoded exactly like its elements, unless it has length zero at an unaligned offset. */
  lemma ArrayHeadRedundant(p: Prim, vs: seq<Value>, off: nat)
    requires TypedAll(Primitive(p), vs)
    ensures EncMember(Array(|vs|), Primitive(p), vs, off) == EncElems(Primitive(p), vs, off)
       <==> (vs != [] || Pad(off, SizeOf(p)) == 0)
  {
    hide Pad, Zeros, EncMember;
    var pad := Pad(off, SizeOf(p));
    ArrayMember(p, vs, off);
    if vs != [] {
      assert vs[0].Bits? by { assert TypedElem(Primitive(p), vs[0]); }
      PadFirst(p, vs, off);
    } else {
      assert EncElems(Primitive(p), vs, off) == [];
      assert |Zeros(pad) + EncElems(Primitive(p), vs, off + pad)| == pad;
    }
  }
}
