// The meaning of the statements the code generator emits for each member, driving the writer and the reader,
// and of the hand-written per-element helpers.
module Generated {
  import opened Bytes
  import opened Schema
  import opened Encoding
  import opened Decoding
  import opened BulkRead
  import opened Cdr
  import opened RoundTrip
  import opened Wrappers

  lemma CountIsAligned(n: nat, off: nat)
    ensures Zeros(Pad(off, 4)) + EncPrim(UInt32, n, off + Pad(off, 4)) == EncPrim(UInt32, n, off)
  {
    hide Pad, EncPrim, Zeros;
    UnalignedPrim(UInt32, n, off);
  }

  lemma CountReadIsAligned(bs: seq<byte>, pos: nat)
    requires 4 <= pos <= |bs|
    ensures var q := pos + Pad(pos - 4, 4);
            DecCount(bs, pos) == if q > |bs| then Thrown(AlignmentPastEnd) else DecCount(bs, q)
  {
    hide Pad, DecPrim;
    UnalignedPrimRead(UInt32, bs, pos);
  }

  method SerializeElem(e: Elem, v: Value, w: CdrWriter)
    requires w.Valid() && TypedElem(e, v)
    modifies w
    ensures w.Valid() && w.buf == old(w.buf) + EncElem(e, v, old(w.PayloadOffset()))
    decreases e, 0, 0
  {
    match e
    case Primitive(p) => w.WritePrim(p, v.bits);
    case Text => w.WriteString(v.chars);
    case Nested(fs) => Serialize(fs, v.members, w);
  }

  /** `for (const auto & e : items) { ... }` */
  method SerializeLoop(e: Elem, items: seq<Value>, w: CdrWriter)
    requires w.Valid() && TypedAll(e, items)
    modifies w
    ensures w.Valid() && w.buf == old(w.buf) + EncElems(e, items, old(w.PayloadOffset()))
    decreases e, 1, 0
  {
    hide EncElem, TypedElem;
    for i := 0 to |items|
      invariant w.Valid()
      invariant w.buf + EncElems(e, items[i..], w.PayloadOffset()) ==
                old(w.buf) + EncElems(e, items, old(w.PayloadOffset()))
    {
      ghost var before := w.buf;
      ghost var tail := EncElems(e, items[i + 1..], |before| - 4 + |EncElem(e, items[i], |before| - 4)|);
      assert items[i..][0] == items[i] && items[i..][1..] == items[i + 1..];
      SerializeElem(e, items[i], w);
      ConcatAssociates(before, EncElem(e, items[i], |before| - 4), tail);
    }
  }

  method SerializeMember(k: Kind, e: Elem, items: seq<Value>, w: CdrWriter)
    requires w.Valid() && CountFits(k, |items|) && TypedAll(e, items)
    modifies w
    ensures w.Valid() && w.buf == old(w.buf) + EncMember(k, e, items, old(w.PayloadOffset()))
    decreases e, 2, 0
  {
    hide EncElem, EncElems, TypedElem, TypedAll, Memory, EncPrim, Pad, Zeros;
    ghost var before, off := w.buf, w.PayloadOffset();
    match k
    case Scalar =>
      SerializeOnly(e, items, w);
    case Sequence =>
      w.AlignTo(4);
      w.WritePrim(UInt32, |items| % U32_LIMIT);
      CountIsAligned(|items| % U32_LIMIT, off);
      ghost var head := EncPrim(UInt32, |items| % U32_LIMIT, off);
      assert w.buf == before + head;
      SerializeItems(e, items, w);
      ConcatAssociates(before, head, EncElems(e, items, off + |head|));
    case Array(_) =>
      if e.Primitive? {
        SerializePrimArray(e.prim, items, w);
      } else {
        SerializeLoop(e, items, w);
      }
  }

  /** The single element of a scalar member. */
  method SerializeOnly(e: Elem, items: seq<Value>, w: CdrWriter)
    requires w.Valid() && |items| == 1 && TypedAll(e, items)
    modifies w
    ensures w.Valid() && w.buf == old(w.buf) + EncElems(e, items, old(w.PayloadOffset()))
    decreases e, 1, 1
  {
    hide EncElem, TypedElem;
    SerializeElem(e, items[0], w);
    assert items[1..] == [];
  }

  /** The elements of a sequence: primitives other than bool are copied in bulk. */
  method SerializeItems(e: Elem, items: seq<Value>, w: CdrWriter)
    requires w.Valid() && TypedAll(e, items)
    modifies w
    ensures w.Valid() && w.buf == old(w.buf) + EncElems(e, items, old(w.PayloadOffset()))
    decreases e, 1, 1
  {
    hide EncElem, TypedElem, TypedAll, Memory, EncPrim, Pad, Zeros;
    if e.Primitive? && e.prim != Bool {
      if items != [] {
        BulkIsPerElement(e.prim, items, w.PayloadOffset());
        w.WriteAligned(Memory(e.prim, items), SizeOf(e.prim));
      }
    } else {
      SerializeLoop(e, items, w);
    }
  }

  method SerializePrimArray(p: Prim, items: seq<Value>, w: CdrWriter)
    requires w.Valid() && TypedAll(Primitive(p), items)
    modifies w
    ensures w.Valid() && w.buf == old(w.buf) + EncMember(Array(|items|), Primitive(p), items, old(w.PayloadOffset()))
  {
    hide EncElem, EncElems, EncMember, TypedElem, TypedAll, Memory, EncPrim, Pad;
    ghost var before, off := w.buf, w.PayloadOffset();
    var pad := Pad(off, SizeOf(p));
    w.AlignTo(WireAlignment(p));
    w.WriteBytes(Memory(p, items));
    ArrayMember(p, items, off);
    assert Pad(off + pad, SizeOf(p)) == 0 by { PadAligns(off, SizeOf(p)); }
    BulkFromAligned(p, items, off + pad);
    ConcatAssociates(before, Zeros(pad), Memory(p, items));
  }

  /** `static void serialize(const M & msg, rcl::CdrWriter & w)` */
  method Serialize(fs: Fields, ms: Members, w: CdrWriter)
    requires w.Valid() && TypedFields(fs, ms)
    modifies w
    ensures w.Valid() && w.buf == old(w.buf) + EncFields(fs, ms, old(w.PayloadOffset()))
    decreases fs, 0, 0
  {
    hide EncMember, TypedAll;
    match (fs, ms)
    case (Field(k, e, rest), Member(items, tail)) =>
      ghost var before := w.buf;
      ghost var head := EncMember(k, e, items, |before| - 4);
      SerializeMember(k, e, items, w);
      Serialize(rest, tail, w);
      ConcatAssociates(before, head, EncFields(rest, tail, |before| - 4 + |head|));
    case _ =>
  }

  // --- deserialize -------------------------------------------------------------

  ghost function Prepend(vs: seq<Value>, d: Decoded<seq<Value>>): Decoded<seq<Value>> {
    match d
    case Ok(ws, q) => Ok(vs + ws, q)
    case _ => d
  }

  method DeserializeElem(e: Elem, r: CdrReader) returns (d: Decoded<Value>)
    requires r.Valid()
    modifies r
    ensures r.Valid() && d == DecElem(e, r.buf, old(r.pos)) && (d.Ok? ==> r.pos == d.pos)
    decreases e, 0, 0
  {
    match e
    case Primitive(p) => d := r.ReadPrim(p);
    case Text =>
      var s :- r.ReadString();
      return Ok(Chars(s.0), r.pos);
    case Nested(fs) =>
      var ms :- Deserialize(fs, r);
      return Ok(Struct(ms.0), r.pos);
  }

  /** `for (auto & e : items) { ... }` over `n` fresh elements. */
  method DeserializeLoop(e: Elem, n: nat, r: CdrReader) returns (d: Decoded<seq<Value>>)
    requires r.Valid()
    modifies r
    ensures r.Valid() && d == DecElems(e, n, r.buf, old(r.pos)) && (d.Ok? ==> r.pos == d.pos)
    decreases e, 1, 0
  {
    hide DecElem;
    var items: seq<Value> := [];
    PrependNothing(DecElems(e, n, r.buf, r.pos));
    for i := 0 to n
      invariant r.Valid()
      invariant DecElems(e, n, r.buf, old(r.pos)) == Prepend(items, DecElems(e, n - i, r.buf, r.pos))
    {
      ghost var rest := DecElems(e, n - i, r.buf, r.pos);
      var v :- DeserializeElem(e, r);
      if rest.Ok? {
        ConcatItems(items, v.0, rest.value[1..]);
      }
      items := items + [v.0];
    }
    assert items + [] == items;
    return Ok(items, r.pos);
  }

  lemma PrependNothing(d: Decoded<seq<Value>>)
    ensures Prepend([], d) == d
  {
    if d.Ok? {
      assert [] + d.value == d.value;
    }
  }

  lemma ConcatItems(vs: seq<Value>, v: Value, ws: seq<Value>)
    ensures vs + ([v] + ws) == (vs + [v]) + ws
  {
  }

  method DeserializeMember(k: Kind, e: Elem, r: CdrReader) returns (d: Decoded<seq<Value>>)
    requires r.Valid()
    modifies r
    ensures r.Valid() && d == DecMember(k, e, r.buf, old(r.pos)) && (d.Ok? ==> r.pos == d.pos)
    decreases e, 2, 0
  {
    hide DecElem, DecElems, DecCount, Pad;
    match k
    case Scalar =>
      d := DeserializeLoop(e, 1, r);
    case Sequence =>
      CountReadIsAligned(r.buf, r.pos);
      var _ :- r.AlignTo(4);
      var counted :- r.ReadUInt32();
      var n := counted.0;
      if n > r.Remaining() {
        return Rejected;
      }
      d := DeserializeItems(e, n, r);
    case Array(len) =>
      if e.Primitive? {
        d := DeserializePrimArray(e.prim, len, r);
      } else {
        d := DeserializeLoop(e, len, r);
      }
  }

  method DeserializePrimArray(p: Prim, len: nat, r: CdrReader) returns (d: Decoded<seq<Value>>)
    requires r.Valid()
    modifies r
    ensures r.Valid() && d == DecMember(Array(len), Primitive(p), r.buf, old(r.pos)) && (d.Ok? ==> r.pos == d.pos)
  {
    hide DecElems, DecPrim, Pad, FromMemory, FromRaw;
    var _ :- r.AlignTo(WireAlignment(p));
    assert Pad(r.pos - 4, SizeOf(p)) == 0 by { PadAligns(old(r.pos) - 4, SizeOf(p)); }
    BulkReadFromAligned(p, len, r.buf, r.pos);
    var raw :- r.ReadBytes(len * SizeOf(p));
    return Ok(FromMemory(p, len, raw.0), r.pos);
  }

  /** The elements of a sequence: primitives other than bool are copied in bulk. */
  method DeserializeItems(e: Elem, n: nat, r: CdrReader) returns (d: Decoded<seq<Value>>)
    requires r.Valid()
    modifies r
    ensures r.Valid() && d == DecElems(e, n, r.buf, old(r.pos)) && (d.Ok? ==> r.pos == d.pos)
    decreases e, 1, 1
  {
    hide DecElem, DecPrim, Pad, FromMemory, FromRaw;
    if e.Primitive? && e.prim != Bool {
      var items: seq<Value> := [];
      if n != 0 {
        AlignFirst(e.prim, n, r.buf, r.pos);
        var _ :- r.AlignTo(WireAlignment(e.prim));
        assert Pad(r.pos - 4, SizeOf(e.prim)) == 0 by { PadAligns(old(r.pos) - 4, SizeOf(e.prim)); }
        BulkReadFromAligned(e.prim, n, r.buf, r.pos);
        var raw :- r.ReadBytes(n * SizeOf(e.prim));
        items := FromMemory(e.prim, n, raw.0);
      }
      return Ok(items, r.pos);
    } else {
      d := DeserializeLoop(e, n, r);
    }
  }

  /** `static bool deserialize(M & msg, rcl::CdrReader & r)` */
  method Deserialize(fs: Fields, r: CdrReader) returns (d: Decoded<Members>)
    requires r.Valid()
    modifies r
    ensures r.Valid() && d == DecFields(fs, r.buf, old(r.pos)) && (d.Ok? ==> r.pos == d.pos)
    decreases fs, 0, 0
  {
    hide DecMember;
    match fs
    case End => return Ok(Stop, r.pos);
    case Field(k, e, rest) =>
      var items :- DeserializeMember(k, e, r);
      var tail :- Deserialize(rest, r);
      return Ok(Member(items.0, tail.0), r.pos);
  }

  // --- the helpers for hand-written message types --------------------------------

  /** `write_sequence`: the length, then one call per element. */
  method WriteSequence(e: Elem, items: seq<Value>, w: CdrWriter)
    requires w.Valid() && TypedAll(e, items)
    modifies w
    ensures w.Valid() && w.buf == old(w.buf) + EncMember(Sequence, e, items, old(w.PayloadOffset()))
  {
    hide EncElem, EncElems, TypedElem, TypedAll, EncPrim, Pad, Zeros;
    ghost var before, off := w.buf, w.PayloadOffset();
    w.AlignTo(4);
    w.WritePrim(UInt32, |items| % U32_LIMIT);
    CountIsAligned(|items| % U32_LIMIT, off);
    ghost var head := EncPrim(UInt32, |items| % U32_LIMIT, off);
    assert w.buf == before + head;
    SerializeLoop(e, items, w);
    ConcatAssociates(before, head, EncElems(e, items, off + |head|));
  }

  /** `read_sequence`: the length, the guard, then one call per element. */
  method ReadSequence(e: Elem, r: CdrReader) returns (d: Decoded<seq<Value>>)
    requires r.Valid()
    modifies r
    ensures r.Valid() && d == DecMember(Sequence, e, r.buf, old(r.pos)) && (d.Ok? ==> r.pos == d.pos)
  {
    hide DecElem, DecElems, DecCount, Pad;
    CountReadIsAligned(r.buf, r.pos);
    var _ :- r.AlignTo(4);
    var counted :- r.ReadUInt32();
    var n := counted.0;
    if n > r.Remaining() {
      return Rejected;
    }
    d := DeserializeLoop(e, n, r);
  }

  /** Serialize at any offset, deserialize from there with anything appended. */
  method ThroughTheWire(fs: Fields, ms: Members, w: CdrWriter, trailing: seq<byte>) returns (d: Decoded<Members>)
    requires w.Valid() && OpenError(w.buf) == None && TypedFields(fs, ms) && FitsFields(fs, ms)
    modifies w
    ensures old(w.buf) <= w.buf
    ensures d == if AdmittedFields(fs, ms, old(w.PayloadOffset()), |w.buf| + |trailing| - 4)
                 then Ok(ms, |w.buf|) else Rejected
  {
    hide EncFields, DecFields, TypedFields, FitsFields, AdmittedFields, OpenError;
    var from := |w.buf|;
    Serialize(fs, ms, w);
    var data := w.buf + trailing;
    assert data[from..|w.buf|] == EncFields(fs, ms, from - 4);
    assert OpenError(data) == None by { OpenErrorOfExtension(old(w.buf), data); }
    var r := new CdrReader(data);
    r.pos := from;
    FieldsRoundTrip(fs, ms, data, from);
    d := Deserialize(fs, r);
  }

  lemma OpenErrorOfExtension(a: seq<byte>, b: seq<byte>)
    requires a <= b && OpenError(a) == None
    ensures OpenError(b) == None
  {
  }
}
