// What acceptance of arbitrary octets means: the decoded value is well formed, its encoding has the consumed
// length, and it decodes to itself in place.
module Acceptance {
  import opened Bytes
  import opened Schema
  import opened Encoding
  import opened Decoding
  import opened RoundTrip

  lemma PrimAccepted(p: Prim, bs: seq<byte>, pos: nat)
    requires 4 <= pos <= |bs| && DecPrim(p, bs, pos).Ok?
    ensures var r := DecPrim(p, bs, pos);
            TypedElem(Primitive(p), r.value) && |EncPrim(p, r.value.bits, pos - 4)| == r.pos - pos
  {
    Pow256Values();
  }

  lemma CountAccepted(bs: seq<byte>, pos: nat)
    requires 4 <= pos <= |bs| && DecCount(bs, pos).Ok?
    ensures var r := DecCount(bs, pos);
            r.value < U32_LIMIT && r.pos == pos + Pad(pos - 4, SizeOf(UInt32)) + SizeOf(UInt32)
  {
    hide Pad;
    PrimAccepted(UInt32, bs, pos);
    Pow256Values();
  }

  lemma TextAccepted(bs: seq<byte>, pos: nat)
    requires 4 <= pos <= |bs| && DecText(bs, pos).Ok?
    ensures var r := DecText(bs, pos);
            |r.value| + 1 < U32_LIMIT && |EncText(r.value, pos - 4)| == r.pos - pos
  {
    hide DecCount, EncPrim;
    CountAccepted(bs, pos);
  }

  lemma {:induction false} ElemAccepted(e: Elem, bs: seq<byte>, pos: nat)
    requires 4 <= pos <= |bs| && DecElem(e, bs, pos).Ok?
    ensures var r := DecElem(e, bs, pos);
            && TypedElem(e, r.value) && FitsElem(e, r.value)
            && |EncElem(e, r.value, pos - 4)| == r.pos - pos
            && AdmittedElem(e, r.value, pos - 4, |bs| - 4)
    decreases e, 0, 0
  {
    match e
    case Primitive(p) => PrimAccepted(p, bs, pos);
    case Text => TextAccepted(bs, pos);
    case Nested(fs) => FieldsAccepted(fs, bs, pos);
  }

  lemma {:induction false} ElemsAccepted(e: Elem, n: nat, bs: seq<byte>, pos: nat)
    requires 4 <= pos <= |bs| && DecElems(e, n, bs, pos).Ok?
    ensures var r := DecElems(e, n, bs, pos);
            && |r.value| == n && TypedAll(e, r.value) && FitsAll(e, r.value)
            && |EncElems(e, r.value, pos - 4)| == r.pos - pos
            && AdmittedElems(e, r.value, pos - 4, |bs| - 4)
    decreases e, 1, n
  {
    hide DecElem, EncElem, TypedElem, FitsElem, AdmittedElem;
    if n > 0 {
      var head := DecElem(e, bs, pos);
      ElemAccepted(e, bs, pos);
      ElemsAccepted(e, n - 1, bs, head.pos);
      var tail := DecElems(e, n - 1, bs, head.pos).value;
      assert ([head.value] + tail)[1..] == tail;
    }
  }

  lemma HeadAccepted(k: Kind, e: Elem, bs: seq<byte>, pos: nat)
    requires 4 <= pos <= |bs| && DecHead(k, e, bs, pos).Ok?
    ensures var r := DecHead(k, e, bs, pos);
            && CountFits(k, r.value) && (k.Sequence? ==> r.value < U32_LIMIT && r.pos + r.value <= |bs|)
            && |EncHead(k, e, r.value, pos - 4)| == r.pos - pos
  {
    hide DecCount, EncPrim, Pad;
    if k.Sequence? {
      CountAccepted(bs, pos);
    }
  }

  lemma {:induction false} MemberAccepted(k: Kind, e: Elem, bs: seq<byte>, pos: nat)
    requires 4 <= pos <= |bs| && DecMember(k, e, bs, pos).Ok?
    ensures var r := DecMember(k, e, bs, pos);
            && CountFits(k, |r.value|) && (k.Sequence? ==> |r.value| < U32_LIMIT)
            && TypedAll(e, r.value) && FitsAll(e, r.value)
            && |EncMember(k, e, r.value, pos - 4)| == r.pos - pos
            && AdmittedMember(k, e, r.value, pos - 4, |bs| - 4)
    decreases e, 2
  {
    hide DecHead, EncHead, DecElems, EncElems, TypedAll, FitsAll, AdmittedElems;
    HeadAccepted(k, e, bs, pos);
    var head := DecHead(k, e, bs, pos);
    ElemsAccepted(e, head.value, bs, head.pos);
  }

  lemma {:induction false} FieldsAccepted(fs: Fields, bs: seq<byte>, pos: nat)
    requires 4 <= pos <= |bs| && DecFields(fs, bs, pos).Ok?
    ensures var r := DecFields(fs, bs, pos);
            && TypedFields(fs, r.value) && FitsFields(fs, r.value)
            && |EncFields(fs, r.value, pos - 4)| == r.pos - pos
            && AdmittedFields(fs, r.value, pos - 4, |bs| - 4)
    decreases fs, 0
  {
    hide DecMember, EncMember, TypedAll, FitsAll, AdmittedMember;
    match fs
    case End =>
    case Field(k, e, rest) =>
      MemberAccepted(k, e, bs, pos);
      FieldsAccepted(rest, bs, DecMember(k, e, bs, pos).pos);
  }

  /** Writing the decoded value back over the octets it was read from decodes to the same value and position. */
  lemma ReencodingIsStable(fs: Fields, bs: seq<byte>, pos: nat)
    requires 4 <= pos <= |bs| && DecFields(fs, bs, pos).Ok?
    ensures var r := DecFields(fs, bs, pos);
            var rewritten := bs[..pos] + EncFields(fs, r.value, pos - 4) + bs[r.pos..];
            |rewritten| == |bs| && DecFields(fs, rewritten, pos) == r
  {
    hide DecFields, EncFields, TypedFields, FitsFields, AdmittedFields;
    FieldsAccepted(fs, bs, pos);
    var r := DecFields(fs, bs, pos);
    var enc := EncFields(fs, r.value, pos - 4);
    var rewritten := bs[..pos] + enc + bs[r.pos..];
    assert rewritten[pos..pos + |enc|] == enc;
    FieldsRoundTrip(fs, r.value, rewritten, pos);
  }
}
