// Deserialize inverts serialize, at any start offset and with any trailing octets, exactly when no sequence
// is longer than the octets that remain behind its length prefix.
module RoundTrip {
  import opened Bytes
  import opened Schema
  import opened Encoding
  import opened Decoding

  /** The length guard lets every sequence of `v` through; `end` is the payload length of the whole buffer. */
  predicate AdmittedElem(e: Elem, v: Value, off: nat, end: nat)
    decreases e, 0, 0
  {
    match (e, v)
    case (Nested(fs), Struct(ms)) => AdmittedFields(fs, ms, off, end)
    case _ => true
  }

  predicate AdmittedElems(e: Elem, vs: seq<Value>, off: nat, end: nat)
    decreases e, 1, |vs|
  {
    vs == [] ||
    (AdmittedElem(e, vs[0], off, end) && AdmittedElems(e, vs[1..], off + |EncElem(e, vs[0], off)|, end))
  }

  predicate AdmittedMember(k: Kind, e: Elem, vs: seq<Value>, off: nat, end: nat)
    decreases e, 2
  {
    var start := off + |EncHead(k, e, |vs|, off)|;
    (k.Sequence? ==> start + |vs| <= end) && AdmittedElems(e, vs, start, end)
  }

  predicate AdmittedFields(fs: Fields, ms: Members, off: nat, end: nat)
    decreases fs, 0
  {
    match (fs, ms)
    case (Field(k, e, rest), Member(items, tail)) =>
      AdmittedMember(k, e, items, off, end) &&
      AdmittedFields(rest, tail, off + |EncMember(k, e, items, off)|, end)
    case _ => true
  }

  lemma PrimRoundTrip(p: Prim, bits: nat, bs: seq<byte>, pos: nat)
    requires 4 <= pos <= |bs|
    requires TypedElem(Primitive(p), Bits(bits))
    requires At(bs, pos, EncPrim(p, bits, pos - 4))
    ensures DecPrim(p, bs, pos) == Ok(Bits(bits), pos + |EncPrim(p, bits, pos - 4)|)
  {
    hide At, Zeros, SizeOf, LittleEndian, FromLittleEndian;
    var pad := Pad(pos - 4, SizeOf(p));
    AtSplit(bs, pos, Zeros(pad), LittleEndian(bits, SizeOf(p)));
    LittleEndianInverse(bits, SizeOf(p));
  }

  lemma CountRoundTrip(n: nat, bs: seq<byte>, pos: nat)
    requires 4 <= pos <= |bs| && n < U32_LIMIT
    requires At(bs, pos, EncPrim(UInt32, n, pos - 4))
    ensures DecCount(bs, pos) == Ok(n, pos + |EncPrim(UInt32, n, pos - 4)|)
  {
    Pow256Values();
    PrimRoundTrip(UInt32, n, bs, pos);
  }

  lemma TextRoundTrip(s: seq<byte>, bs: seq<byte>, pos: nat)
    requires 4 <= pos <= |bs| && |s| + 1 < U32_LIMIT
    requires At(bs, pos, EncText(s, pos - 4))
    ensures DecText(bs, pos) == Ok(s, pos + |EncText(s, pos - 4)|)
  {
    hide EncPrim, DecCount;
    var len := EncPrim(UInt32, |s| + 1, pos - 4);
    assert EncText(s, pos - 4) == len + (s + [0]);
    AtSplit(bs, pos, len, s + [0]);
    CountRoundTrip(|s| + 1, bs, pos);
    AtSplit(bs, pos + |len|, s, [0]);
  }

  lemma {:induction false} ElemRoundTrip(e: Elem, v: Value, bs: seq<byte>, pos: nat)
    requires 4 <= pos <= |bs| && TypedElem(e, v) && FitsElem(e, v)
    requires At(bs, pos, EncElem(e, v, pos - 4))
    ensures DecElem(e, bs, pos) ==
            if AdmittedElem(e, v, pos - 4, |bs| - 4) then Ok(v, pos + |EncElem(e, v, pos - 4)|) else Rejected
    decreases e, 0, 0
  {
    match e
    case Primitive(p) => PrimRoundTrip(p, v.bits, bs, pos);
    case Text => TextRoundTrip(v.chars, bs, pos);
    case Nested(fs) => FieldsRoundTrip(fs, v.members, bs, pos);
  }

  lemma {:induction false} ElemsRoundTrip(e: Elem, vs: seq<Value>, bs: seq<byte>, pos: nat)
    requires 4 <= pos <= |bs| && TypedAll(e, vs) && FitsAll(e, vs)
    requires At(bs, pos, EncElems(e, vs, pos - 4))
    ensures DecElems(e, |vs|, bs, pos) ==
            if AdmittedElems(e, vs, pos - 4, |bs| - 4) then Ok(vs, pos + |EncElems(e, vs, pos - 4)|) else Rejected
    decreases e, 1, |vs|
  {
    hide At, EncElem, DecElem, AdmittedElem, TypedElem, FitsElem;
    if vs != [] {
      var head := EncElem(e, vs[0], pos - 4);
      var q := pos + |head|;
      var tail := EncElems(e, vs[1..], q - 4);
      assert EncElems(e, vs, pos - 4) == head + tail;
      AtSplit(bs, pos, head, tail);
      ElemRoundTrip(e, vs[0], bs, pos);
      if AdmittedElem(e, vs[0], pos - 4, |bs| - 4) {
        ElemsRoundTrip(e, vs[1..], bs, q);
        assert vs == [vs[0]] + vs[1..];
      }
    }
  }

  lemma SequenceHeadRoundTrip(e: Elem, n: nat, bs: seq<byte>, pos: nat)
    requires 4 <= pos <= |bs| && n < U32_LIMIT && At(bs, pos, EncHead(Sequence, e, n, pos - 4))
    ensures var q := pos + |EncHead(Sequence, e, n, pos - 4)|;
            DecHead(Sequence, e, bs, pos) == if q + n > |bs| then Rejected else Ok(n, q)
  {
    hide At, Pad, EncPrim, DecCount;
    assert EncHead(Sequence, e, n, pos - 4) == EncPrim(UInt32, n, pos - 4);
    CountRoundTrip(n, bs, pos);
  }

  lemma ArrayHeadRoundTrip(e: Elem, n: nat, bs: seq<byte>, pos: nat)
    requires 4 <= pos <= |bs| && At(bs, pos, EncHead(Array(n), e, n, pos - 4))
    ensures DecHead(Array(n), e, bs, pos) == Ok(n, pos + |EncHead(Array(n), e, n, pos - 4)|)
  {
    hide Pad, WireAlignment;
    assert pos + |EncHead(Array(n), e, n, pos - 4)| <= |bs|;
  }

  lemma HeadRoundTrip(k: Kind, e: Elem, n: nat, bs: seq<byte>, pos: nat)
    requires 4 <= pos <= |bs| && CountFits(k, n) && (k.Sequence? ==> n < U32_LIMIT)
    requires At(bs, pos, EncHead(k, e, n, pos - 4))
    ensures var q := pos + |EncHead(k, e, n, pos - 4)|;
            DecHead(k, e, bs, pos) == if k.Sequence? && q + n > |bs| then Rejected else Ok(n, q)
  {
    match k
    case Scalar =>
      hide At, Pad, EncPrim, DecCount;
    case Sequence =>
      hide At, EncHead, DecHead;
      SequenceHeadRoundTrip(e, n, bs, pos);
    case Array(_) =>
      hide At, EncHead, DecHead;
      ArrayHeadRoundTrip(e, n, bs, pos);
  }

  lemma {:induction false} MemberRoundTrip(k: Kind, e: Elem, vs: seq<Value>, bs: seq<byte>, pos: nat)
    requires 4 <= pos <= |bs| && CountFits(k, |vs|) && TypedAll(e, vs)
    requires (k.Sequence? ==> |vs| < U32_LIMIT) && FitsAll(e, vs)
    requires At(bs, pos, EncMember(k, e, vs, pos - 4))
    ensures DecMember(k, e, bs, pos) ==
            if AdmittedMember(k, e, vs, pos - 4, |bs| - 4) then Ok(vs, pos + |EncMember(k, e, vs, pos - 4)|) else Rejected
    decreases e, 2
  {
    hide At, EncHead, DecHead, EncElems, DecElems, AdmittedElems, TypedAll, FitsAll;
    var head := EncHead(k, e, |vs|, pos - 4);
    var q := pos + |head|;
    var tail := EncElems(e, vs, q - 4);
    assert EncMember(k, e, vs, pos - 4) == head + tail;
    AtSplit(bs, pos, head, tail);
    HeadRoundTrip(k, e, |vs|, bs, pos);
    if k.Sequence? ==> q + |vs| <= |bs| {
      ElemsRoundTrip(e, vs, bs, q);
    }
  }

  lemma {:induction false} FieldsRoundTrip(fs: Fields, ms: Members, bs: seq<byte>, pos: nat)
    requires 4 <= pos <= |bs| && TypedFields(fs, ms) && FitsFields(fs, ms)
    requires At(bs, pos, EncFields(fs, ms, pos - 4))
    ensures DecFields(fs, bs, pos) ==
            if AdmittedFields(fs, ms, pos - 4, |bs| - 4) then Ok(ms, pos + |EncFields(fs, ms, pos - 4)|) else Rejected
    decreases fs, 0
  {
    hide At, EncMember, DecMember, AdmittedMember, TypedAll, FitsAll;
    match (fs, ms)
    case (Field(k, e, rest), Member(items, tail)) =>
      var head := EncMember(k, e, items, pos - 4);
      var q := pos + |head|;
      assert EncFields(fs, ms, pos - 4) == head + EncFields(rest, tail, q - 4);
      AtSplit(bs, pos, head, EncFields(rest, tail, q - 4));
      MemberRoundTrip(k, e, items, bs, pos);
      if AdmittedMember(k, e, items, pos - 4, |bs| - 4) {
        FieldsRoundTrip(rest, tail, bs, q);
      }
    case _ =>
  }
}
