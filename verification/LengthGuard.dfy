// The `n > remaining` guard assumes that every sequence element occupies at least one octet. Which schemas
// meet that assumption, and what follows for them - and only for them.
module LengthGuard {
  import opened Bytes
  import opened Schema
  import opened Encoding
  import opened Decoding
  import opened RoundTrip
  import opened Acceptance

  /** Every value of the element is encoded in at least one octet. */
  predicate Occupies(e: Elem)
    decreases e
  {
    match e
    case Primitive(_) => true
    case Text => true
    case Nested(fs) => FieldsOccupy(fs)
  }

  predicate FieldsOccupy(fs: Fields)
    decreases fs
  {
    match fs
    case End => false
    case Field(k, e, rest) => k.Sequence? || (k != Array(0) && Occupies(e)) || FieldsOccupy(rest)
  }

  /** No reachable sequence has elements that may be empty on the wire. */
  predicate SolidElem(e: Elem)
    decreases e
  {
    match e
    case Primitive(_) => true
    case Text => true
    case Nested(fs) => Solid(fs)
  }

  predicate Solid(fs: Fields)
    decreases fs
  {
    match fs
    case End => true
    case Field(k, e, rest) => (k.Sequence? ==> Occupies(e)) && (k == Array(0) || SolidElem(e)) && Solid(rest)
  }

  /** All sequence elements in a value, at every nesting depth. */
  function SequenceElements(e: Elem, v: Value): nat
    decreases e, 0, 0
  {
    match (e, v)
    case (Nested(fs), Struct(ms)) => FieldElements(fs, ms)
    case _ => 0
  }

  function ListElements(e: Elem, vs: seq<Value>): nat
    decreases e, 1, |vs|
  {
    if vs == [] then 0 else SequenceElements(e, vs[0]) + ListElements(e, vs[1..])
  }

  function FieldElements(fs: Fields, ms: Members): nat
    decreases fs, 0
  {
    match (fs, ms)
    case (Field(k, e, rest), Member(items, tail)) =>
      (if k.Sequence? then |items| else 0) + ListElements(e, items) + FieldElements(rest, tail)
    case _ => 0
  }

  /** Every element of a sequence counts once, on top of what it contains itself; elements of other members do not
      count. */
  lemma ElementsCounted(k: Kind, e: Elem, rest: Fields, v: Value, more: seq<Value>, tail: Members)
    ensures FieldElements(End, Stop) == 0
    ensures FieldElements(Field(k, e, rest), Member([], tail)) == FieldElements(rest, tail)
    ensures FieldElements(Field(k, e, rest), Member([v] + more, tail)) ==
              (if k.Sequence? then 1 else 0)
              + (if e.Nested? && v.Struct? then FieldElements(e.fields, v.members) else 0)
              + FieldElements(Field(k, e, rest), Member(more, tail))
  {
    hide FieldElements;
    CountMember(k, e, [], rest, tail);
    CountMember(k, e, more, rest, tail);
    CountMember(k, e, [v] + more, rest, tail);
    assert ([v] + more)[1..] == more;
    assert ListElements(e, [v] + more) == SequenceElements(e, v) + ListElements(e, more);
    assert FieldElements(End, Stop) == 0 by { NoElements(); }
  }

  lemma NoElements()
    ensures FieldElements(End, Stop) == 0
  {
  }

  lemma CountMember(k: Kind, e: Elem, items: seq<Value>, rest: Fields, tail: Members)
    ensures FieldElements(Field(k, e, rest), Member(items, tail)) ==
              (if k.Sequence? then |items| else 0) + ListElements(e, items) + FieldElements(rest, tail)
  {
  }

  function One(b: bool): nat { if b then 1 else 0 }

  lemma {:induction false} ElemSize(e: Elem, v: Value, off: nat)
    requires TypedElem(e, v) && SolidElem(e)
    ensures |EncElem(e, v, off)| >= SequenceElements(e, v) + One(Occupies(e))
    decreases e, 0, 0
  {
    hide Pad;
    match e
    case Primitive(_) =>
    case Text =>
    case Nested(fs) => FieldsSize(fs, v.members, off);
  }

  lemma {:induction false} ElemsSize(e: Elem, vs: seq<Value>, off: nat)
    requires TypedAll(e, vs) && SolidElem(e)
    ensures |EncElems(e, vs, off)| >= ListElements(e, vs) + (if Occupies(e) then |vs| else 0)
    decreases e, 1, |vs|
  {
    hide EncElem, SequenceElements, TypedElem, SolidElem, Occupies;
    if vs != [] {
      ElemSize(e, vs[0], off);
      ElemsSize(e, vs[1..], off + |EncElem(e, vs[0], off)|);
    }
  }

  lemma {:induction false} FieldsSize(fs: Fields, ms: Members, off: nat)
    requires TypedFields(fs, ms) && Solid(fs)
    ensures |EncFields(fs, ms, off)| >= FieldElements(fs, ms) + One(FieldsOccupy(fs))
    decreases fs, 0
  {
    hide EncElems, TypedAll, SolidElem, Occupies, EncPrim;
    match (fs, ms)
    case (Field(k, e, rest), Member(items, tail)) =>
      var head := EncMember(k, e, items, off);
      if k != Array(0) {
        ElemsSize(e, items, off + |EncHead(k, e, |items|, off)|);
      } else {
        assert items == [] && ListElements(e, items) == 0;
      }
      FieldsSize(rest, tail, off + |head|);
    case _ =>
  }

  lemma {:induction false} SolidElemAdmits(e: Elem, v: Value, off: nat, end: nat)
    requires TypedElem(e, v) && SolidElem(e) && off + |EncElem(e, v, off)| <= end
    ensures AdmittedElem(e, v, off, end)
    decreases e, 0, 0
  {
    if e.Nested? {
      SolidAdmits(e.fields, v.members, off, end);
    }
  }

  lemma {:induction false} SolidElemsAdmit(e: Elem, vs: seq<Value>, off: nat, end: nat)
    requires TypedAll(e, vs) && SolidElem(e) && off + |EncElems(e, vs, off)| <= end
    ensures AdmittedElems(e, vs, off, end)
    decreases e, 1, |vs|
  {
    hide EncElem, TypedElem, SolidElem, AdmittedElem;
    if vs != [] {
      SolidElemAdmits(e, vs[0], off, end);
      SolidElemsAdmit(e, vs[1..], off + |EncElem(e, vs[0], off)|, end);
    }
  }

  lemma SolidMemberAdmits(k: Kind, e: Elem, vs: seq<Value>, off: nat, end: nat)
    requires CountFits(k, |vs|) && TypedAll(e, vs) && off + |EncMember(k, e, vs, off)| <= end
    requires (k.Sequence? ==> Occupies(e)) && (k == Array(0) || SolidElem(e))
    ensures AdmittedMember(k, e, vs, off, end)
    decreases e, 2, 0
  {
    hide EncElems, TypedAll, SolidElem, Occupies, EncHead;
    var start := off + |EncHead(k, e, |vs|, off)|;
    if k == Array(0) {
      assert vs == [] && AdmittedElems(e, vs, start, end);
    } else {
      ElemsSize(e, vs, start);
      SolidElemsAdmit(e, vs, start, end);
    }
  }

  /** With solid schemas the guard never rejects what serialize wrote. */
  lemma {:induction false} SolidAdmits(fs: Fields, ms: Members, off: nat, end: nat)
    requires TypedFields(fs, ms) && Solid(fs) && off + |EncFields(fs, ms, off)| <= end
    ensures AdmittedFields(fs, ms, off, end)
    decreases fs, 0
  {
    hide EncMember, TypedAll, SolidElem, Occupies, AdmittedMember;
    match (fs, ms)
    case (Field(k, e, rest), Member(items, tail)) =>
      SolidMemberAdmits(k, e, items, off, end);
      SolidAdmits(rest, tail, off + |EncMember(k, e, items, off)|, end);
    case _ =>
  }

  /** For a solid schema an accepted buffer holds no more sequence elements than octets. */
  lemma AcceptedElementsBounded(fs: Fields, bs: seq<byte>, pos: nat)
    requires 4 <= pos <= |bs| && Solid(fs) && DecFields(fs, bs, pos).Ok?
    ensures var r := DecFields(fs, bs, pos);
            FieldElements(fs, r.value) <= r.pos - pos
  {
    hide DecFields, EncFields, TypedFields, FitsFields, Solid, AdmittedFields;
    FieldsAccepted(fs, bs, pos);
    FieldsSize(fs, DecFields(fs, bs, pos).value, pos - 4);
  }

  // --- the converse: every other schema has values that do not survive --------

  function Copies(v: Value, n: nat): (vs: seq<Value>)
    ensures |vs| == n && forall i :: 0 <= i < n ==> vs[i] == v
  {
    seq(n, _ => v)
  }

  function DefaultElem(e: Elem): (v: Value)
    ensures TypedElem(e, v) && FitsElem(e, v)
    decreases e, 0
  {
    match e
    case Primitive(_) => Bits(0)
    case Text => Chars([])
    case Nested(fs) => Struct(DefaultFields(fs))
  }

  function DefaultFields(fs: Fields): (ms: Members)
    ensures TypedFields(fs, ms) && FitsFields(fs, ms)
    decreases fs, 0
  {
    match fs
    case End => Stop
    case Field(k, e, rest) => Member(DefaultItems(k, e), DefaultFields(rest))
  }

  function DefaultItems(k: Kind, e: Elem): (vs: seq<Value>)
    ensures CountFits(k, |vs|) && TypedAll(e, vs) && FitsAll(e, vs) && (k.Sequence? ==> vs == [])
    decreases e, 1
  {
    match k
    case Scalar => [DefaultElem(e)]
    case Sequence => []
    case Array(len) => Copies(DefaultElem(e), len)
  }

  /** A value whose offending sequence has `n` empty elements; everything else is as short as possible. */
  function OverlongElem(e: Elem, n: nat): (v: Value)
    requires !SolidElem(e) && n < U32_LIMIT
    ensures TypedElem(e, v) && FitsElem(e, v)
    decreases e
  {
    Struct(Overlong(e.fields, n))
  }

  function Overlong(fs: Fields, n: nat): (ms: Members)
    requires !Solid(fs) && n < U32_LIMIT
    ensures TypedFields(fs, ms) && FitsFields(fs, ms)
    decreases fs
  {
    var Field(k, e, rest) := fs;
    if k.Sequence? && !Occupies(e) then Member(Copies(DefaultElem(e), n), DefaultFields(rest))
    else if k != Array(0) && !SolidElem(e) then
      Member([OverlongElem(e, n)] + (if k.Array? then Copies(DefaultElem(e), k.len - 1) else []), DefaultFields(rest))
    else Member(DefaultItems(k, e), Overlong(rest, n))
  }

  /** An element that need not occupy an octet is all padding, and no further than to the next multiple of eight. */
  lemma {:induction false} PaddingElem(e: Elem, v: Value, off: nat)
    requires TypedElem(e, v) && !Occupies(e)
    ensures |EncElem(e, v, off)| <= Pad(off, 8)
    decreases e, 0, 0
  {
    hide Pad;
    PaddingFields(e.fields, v.members, off);
  }

  lemma {:induction false} PaddingElems(e: Elem, vs: seq<Value>, off: nat)
    requires TypedAll(e, vs) && !Occupies(e)
    ensures |EncElems(e, vs, off)| <= Pad(off, 8)
    decreases e, 1, |vs|
  {
    hide EncElem, TypedElem, Occupies, Pad;
    if vs != [] {
      var head := EncElem(e, vs[0], off);
      PaddingElem(e, vs[0], off);
      EightCountsDown(off, |head|);
      PaddingElems(e, vs[1..], off + |head|);
    }
  }

  lemma {:induction false} PaddingFields(fs: Fields, ms: Members, off: nat)
    requires TypedFields(fs, ms) && !FieldsOccupy(fs)
    ensures |EncFields(fs, ms, off)| <= Pad(off, 8)
    decreases fs, 0
  {
    hide EncElems, EncMember, TypedAll, Pad, Occupies;
    match (fs, ms)
    case (Field(k, e, rest), Member(items, tail)) =>
      var head := EncMember(k, e, items, off);
      PaddingMember(k, e, items, off);
      EightCountsDown(off, |head|);
      PaddingFields(rest, tail, off + |head|);
    case _ =>
  }

  lemma {:induction false} PaddingMember(k: Kind, e: Elem, items: seq<Value>, off: nat)
    requires CountFits(k, |items|) && TypedAll(e, items) && !k.Sequence? && (k == Array(0) || !Occupies(e))
    ensures |EncMember(k, e, items, off)| <= Pad(off, 8)
    decreases e, 2
  {
    hide EncElem, TypedAll, Pad;
    var head := EncHead(k, e, |items|, off);
    if k == Array(0) {
      assert items == [] && EncElems(e, items, off + |head|) == [];
      if e.Primitive? {
        PadWithinEight(off, WireAlignment(e.prim));
      }
    } else {
      assert head == [];
      PaddingElems(e, items, off);
    }
  }

  // --- how far the end of an encoding moves when its start does ------------------------------------

  /** One offset is reached from the other by at most eight octets. */
  predicate Near(a: nat, b: nat) {
    a <= b <= a + 8
  }

  lemma {:induction false} ElemMoves(e: Elem, v: Value, a: nat, b: nat)
    requires Near(a, b)
    ensures Near(a + |EncElem(e, v, a)|, b + |EncElem(e, v, b)|)
    decreases e, 0, 0
  {
    hide Pad;
    match (e, v)
    case (Primitive(p), Bits(_)) => PadShifts(a, b, SizeOf(p));
    case (Text, Chars(_)) => PadShifts(a, b, 4);
    case (Nested(fs), Struct(ms)) => FieldsMove(fs, ms, a, b);
    case _ =>
  }

  lemma {:induction false} ElemsMove(e: Elem, vs: seq<Value>, a: nat, b: nat)
    requires Near(a, b)
    ensures Near(a + |EncElems(e, vs, a)|, b + |EncElems(e, vs, b)|)
    decreases e, 1, |vs|
  {
    hide EncElem, Near;
    if vs != [] {
      ElemMoves(e, vs[0], a, b);
      ElemsMove(e, vs[1..], a + |EncElem(e, vs[0], a)|, b + |EncElem(e, vs[0], b)|);
    }
  }

  lemma HeadMoves(k: Kind, e: Elem, n: nat, a: nat, b: nat)
    requires Near(a, b)
    ensures Near(a + |EncHead(k, e, n, a)|, b + |EncHead(k, e, n, b)|)
  {
    hide Pad, WireAlignment;
    match k
    case Scalar =>
    case Sequence => PadShifts(a, b, 4);
    case Array(_) =>
      if e.Primitive? {
        PadShifts(a, b, WireAlignment(e.prim));
      }
  }

  lemma {:induction false} FieldsMove(fs: Fields, ms: Members, a: nat, b: nat)
    requires Near(a, b)
    ensures Near(a + |EncFields(fs, ms, a)|, b + |EncFields(fs, ms, b)|)
    decreases fs, 0
  {
    hide EncElems, EncHead, Near;
    match (fs, ms)
    case (Field(k, e, rest), Member(items, tail)) =>
      HeadMoves(k, e, |items|, a, b);
      ElemsMove(e, items, a + |EncHead(k, e, |items|, a)|, b + |EncHead(k, e, |items|, b)|);
      FieldsMove(rest, tail, a + |EncMember(k, e, items, a)|, b + |EncMember(k, e, items, b)|);
    case _ =>
  }

  lemma {:induction false} OverlongElemSize(e: Elem, n: nat, off: nat)
    requires !SolidElem(e) && n < U32_LIMIT
    ensures Near(off + |EncElem(e, OverlongElem(e, 0), off)|, off + |EncElem(e, OverlongElem(e, n), off)|)
    decreases e, 0
  {
    hide Near;
    OverlongSize(e.fields, n, off);
  }

  lemma FieldStep(k: Kind, e: Elem, rest: Fields, items: seq<Value>, tail: Members, off: nat)
    ensures var head := EncMember(k, e, items, off);
            off + |EncFields(Field(k, e, rest), Member(items, tail), off)|
              == off + |head| + |EncFields(rest, tail, off + |head|)|
  {
    hide EncMember;
  }

  /** However many empty elements there are, the encoding grows by at most eight octets. */
  lemma {:induction false} OverlongSize(fs: Fields, n: nat, off: nat)
    requires !Solid(fs) && n < U32_LIMIT
    ensures Near(off + |EncFields(fs, Overlong(fs, 0), off)|, off + |EncFields(fs, Overlong(fs, n), off)|)
    decreases fs, 0
  {
    hide EncElem, EncElems, EncMember, EncHead, EncFields, TypedElem, FitsElem, DefaultElem, OverlongElem, TypedFields,
         FitsFields, Near;
    var Field(k, e, rest) := fs;
    var short, long := Overlong(fs, 0), Overlong(fs, n);
    FieldStep(k, e, rest, short.items, short.rest, off);
    FieldStep(k, e, rest, long.items, long.rest, off);
    if !(k.Sequence? && !Occupies(e)) && (k == Array(0) || SolidElem(e)) {
      OverlongSize(rest, n, off + |EncMember(k, e, DefaultItems(k, e), off)|);
    } else {
      OverlongItemsSize(fs, n, off);
      FieldsMove(rest, DefaultFields(rest), off + |EncMember(k, e, short.items, off)|,
                 off + |EncMember(k, e, long.items, off)|);
    }
  }

  lemma OverlongItemsSize(fs: Fields, n: nat, off: nat)
    requires !Solid(fs) && n < U32_LIMIT
    requires (fs.kind.Sequence? && !Occupies(fs.elem)) || (fs.kind != Array(0) && !SolidElem(fs.elem))
    ensures Near(off + |EncMember(fs.kind, fs.elem, Overlong(fs, 0).items, off)|,
                 off + |EncMember(fs.kind, fs.elem, Overlong(fs, n).items, off)|)
    decreases fs, 0, 0
  {
    hide EncElem, EncPrim, TypedElem, FitsElem, DefaultElem, OverlongElem, TypedFields, FitsFields, Near;
    var Field(k, e, rest) := fs;
    var start := off + |EncHead(k, e, 1, off)|;
    if k.Sequence? && !Occupies(e) {
      PaddingElems(e, Copies(DefaultElem(e), n), start);
      PaddedIsNear(start, |EncElems(e, Copies(DefaultElem(e), n), start)|);
      assert EncElems(e, Copies(DefaultElem(e), 0), start) == [];
    } else {
      var more := if k.Array? then Copies(DefaultElem(e), k.len - 1) else [];
      OverlongElemSize(e, n, start);
      FirstElemMoves(e, OverlongElem(e, 0), OverlongElem(e, n), more, start);
    }
  }

  lemma PaddedIsNear(start: nat, padding: nat)
    requires padding <= Pad(start, 8)
    ensures Near(start, start + padding)
  {
    hide Pad;
  }

  lemma FirstElemMoves(e: Elem, a: Value, b: Value, more: seq<Value>, off: nat)
    requires Near(off + |EncElem(e, a, off)|, off + |EncElem(e, b, off)|)
    ensures Near(off + |EncElems(e, [a] + more, off)|, off + |EncElems(e, [b] + more, off)|)
  {
    hide EncElem, Near;
    assert ([a] + more)[1..] == more == ([b] + more)[1..];
    ElemsMove(e, more, off + |EncElem(e, a, off)|, off + |EncElem(e, b, off)|);
  }

  lemma {:induction false} OverlongElemNotAdmitted(e: Elem, n: nat, off: nat, end: nat)
    requires !SolidElem(e) && end < n < U32_LIMIT
    ensures !AdmittedElem(e, OverlongElem(e, n), off, end)
    decreases e, 0
  {
    OverlongNotAdmitted(e.fields, n, off, end);
  }

  lemma {:induction false} OverlongNotAdmitted(fs: Fields, n: nat, off: nat, end: nat)
    requires !Solid(fs) && end < n < U32_LIMIT
    ensures !AdmittedFields(fs, Overlong(fs, n), off, end)
    decreases fs, 0
  {
    hide EncElem, EncPrim, TypedElem, FitsElem, DefaultElem, OverlongElem, AdmittedElem, TypedFields, FitsFields;
    var Field(k, e, rest) := fs;
    if k.Sequence? && !Occupies(e) {
    } else if k != Array(0) && !SolidElem(e) {
      var items := Overlong(fs, n).items;
      var start := off + |EncHead(k, e, |items|, off)|;
      OverlongElemNotAdmitted(e, n, start, end);
      assert items[0] == OverlongElem(e, n) && !AdmittedElems(e, items, start, end);
    } else {
      OverlongNotAdmitted(rest, n, off + |EncMember(k, e, DefaultItems(k, e), off)|, end);
    }
  }

  /** Every well-formed value survives serialize and deserialize, whatever surrounds it. */
  ghost predicate AlwaysRoundTrips(fs: Fields) {
    forall ms: Members, bs: seq<byte>, pos: nat {:trigger EncFields(fs, ms, pos - 4), DecFields(fs, bs, pos)} ::
      4 <= pos <= |bs| && TypedFields(fs, ms) && FitsFields(fs, ms) && At(bs, pos, EncFields(fs, ms, pos - 4)) ==>
        DecFields(fs, bs, pos) == Ok(ms, pos + |EncFields(fs, ms, pos - 4)|)
  }

  lemma SolidRoundTrips(fs: Fields, ms: Members, bs: seq<byte>, pos: nat)
    requires 4 <= pos <= |bs| && Solid(fs) && TypedFields(fs, ms) && FitsFields(fs, ms)
    requires At(bs, pos, EncFields(fs, ms, pos - 4))
    ensures DecFields(fs, bs, pos) == Ok(ms, pos + |EncFields(fs, ms, pos - 4)|)
  {
    hide DecFields, EncFields, TypedFields, FitsFields, Solid, AdmittedFields;
    SolidAdmits(fs, ms, pos - 4, |bs| - 4);
    FieldsRoundTrip(fs, ms, bs, pos);
  }

  /** A well-formed value of a solid schema, behind a fresh header, is decoded in full. */
  lemma SentIsDecoded(header: seq<byte>, fs: Fields, ms: Members)
    requires |header| == 4 && Solid(fs) && WellFormed(fs, ms)
    ensures var sent := header + EncFields(fs, ms, 0);
            DecFields(fs, sent, 4) == Ok(ms, |sent|)
  {
    hide EncFields, DecFields, Solid;
    var sent := header + EncFields(fs, ms, 0);
    assert sent[4..] == EncFields(fs, ms, 4 - 4);
    SolidRoundTrips(fs, ms, sent, 4);
  }

  /** The round trip holds for all values exactly when every sequence element occupies at least one octet. */
  lemma RoundTripsIffSolid(fs: Fields)
    requires !Solid(fs) ==> |EncFields(fs, Overlong(fs, 0), 0)| + 9 < U32_LIMIT
    ensures AlwaysRoundTrips(fs) <==> Solid(fs)
  {
    hide DecFields, EncFields, TypedFields, FitsFields, AdmittedFields, Solid, Overlong;
    if Solid(fs) {
      forall ms: Members, bs: seq<byte>, pos: nat
        | 4 <= pos <= |bs| && TypedFields(fs, ms) && FitsFields(fs, ms) && At(bs, pos, EncFields(fs, ms, pos - 4))
        ensures DecFields(fs, bs, pos) == Ok(ms, pos + |EncFields(fs, ms, pos - 4)|)
      {
        SolidRoundTrips(fs, ms, bs, pos);
      }
    } else {
      var n := |EncFields(fs, Overlong(fs, 0), 0)| + 9;
      var ms := Overlong(fs, n);
      OverlongSize(fs, n, 0);
      var bs := Zeros(4) + EncFields(fs, ms, 0);
      OverlongNotAdmitted(fs, n, 0, |bs| - 4);
      assert bs[4..] == EncFields(fs, ms, 4 - 4);
      FieldsRoundTrip(fs, ms, bs, 4);
      assert DecFields(fs, bs, 4) == Rejected;
    }
  }
}
