// Nesting leaves no trace on the wire: a message is one run of counts, primitives and strings in declaration order,
// each aligned on its own. Spelled out for the message types that are shipped.
module Layout {
  import opened Bytes
  import opened Schema
  import opened Encoding
  import opened PyCodec
  import opened PyMessages

  /** One aligned item of the run; a gap is the alignment in front of a primitive array. */
  datatype Leaf = Num(prim: Prim, bits: nat) | Str(chars: seq<byte>) | Gap(before: Prim)

  function LeafOctets(l: Leaf, off: nat): seq<byte> {
    match l
    case Num(p, bits) => EncPrim(p, bits, off)
    case Str(s) => EncText(s, off)
    case Gap(p) => Zeros(Pad(off, SizeOf(p)))
  }

  function Flat(ls: seq<Leaf>, off: nat): seq<byte> {
    if ls == [] then []
    else
      var head := LeafOctets(ls[0], off);
      head + Flat(ls[1..], off + |head|)
  }

  lemma FlatStep(l: Leaf, ls: seq<Leaf>, off: nat)
    ensures var head := LeafOctets(l, off);
            Flat([l] + ls, off) == head + Flat(ls, off + |head|)
  {
    hide LeafOctets;
    assert ([l] + ls)[1..] == ls;
  }

  /** The run of two lists is the one behind the other, in one alignment context. */
  lemma {:induction false} FlatConcat(a: seq<Leaf>, b: seq<Leaf>, off: nat)
    ensures var head := Flat(a, off);
            Flat(a + b, off) == head + Flat(b, off + |head|)
  {
    hide LeafOctets, Flat;
    if a == [] {
      assert a + b == b;
      FlatNone(off);
    } else {
      var head := LeafOctets(a[0], off);
      var more := Flat(a[1..], off + |head|);
      assert [a[0]] + a[1..] == a && [a[0]] + (a[1..] + b) == a + b;
      FlatStep(a[0], a[1..], off);
      FlatStep(a[0], a[1..] + b, off);
      FlatConcat(a[1..], b, off + |head|);
      ConcatAssociates(head, more, Flat(b, off + |head| + |more|));
    }
  }

  lemma FlatOne(l: Leaf, off: nat)
    ensures Flat([l], off) == LeafOctets(l, off)
  {
    hide LeafOctets;
    var head := LeafOctets(l, off);
    assert [l][1..] == [] && Flat([], off + |head|) == [];
    assert head + [] == head;
  }

  lemma FlatNone(off: nat)
    ensures Flat([], off) == []
  {
  }

  function ElemLeaves(e: Elem, v: Value): seq<Leaf>
    decreases e, 0, 0
  {
    match (e, v)
    case (Primitive(p), Bits(b)) => [Num(p, b)]
    case (Text, Chars(s)) => [Str(s)]
    case (Nested(fs), Struct(ms)) => FieldLeaves(fs, ms)
    case _ => []
  }

  function ItemLeaves(e: Elem, vs: seq<Value>): seq<Leaf>
    decreases e, 1, |vs|
  {
    if vs == [] then [] else ElemLeaves(e, vs[0]) + ItemLeaves(e, vs[1..])
  }

  function HeadLeaves(k: Kind, e: Elem, n: nat): seq<Leaf> {
    match k
    case Scalar => []
    case Sequence => [Num(UInt32, n % U32_LIMIT)]
    case Array(_) => if e.Primitive? then [Gap(e.prim)] else []
  }

  function FieldLeaves(fs: Fields, ms: Members): seq<Leaf>
    decreases fs, 0
  {
    match (fs, ms)
    case (Field(k, e, rest), Member(items, tail)) =>
      HeadLeaves(k, e, |items|) + ItemLeaves(e, items) + FieldLeaves(rest, tail)
    case _ => []
  }

  lemma {:induction false} ElemIsOneRun(e: Elem, v: Value, off: nat)
    ensures EncElem(e, v, off) == Flat(ElemLeaves(e, v), off)
    decreases e, 0, 0
  {
    hide EncPrim, EncText;
    match (e, v)
    case (Primitive(p), Bits(b)) => FlatOne(Num(p, b), off);
    case (Text, Chars(s)) => FlatOne(Str(s), off);
    case (Nested(fs), Struct(ms)) => MessageIsOneRun(fs, ms, off);
    case _ =>
  }

  lemma {:induction false} ItemsAreOneRun(e: Elem, vs: seq<Value>, off: nat)
    ensures EncElems(e, vs, off) == Flat(ItemLeaves(e, vs), off)
    decreases e, 1, |vs|
  {
    hide EncElem, ElemLeaves, Flat;
    if vs == [] {
      assert Flat([], off) == [] by { FlatNone(off); }
    } else {
      ElemIsOneRun(e, vs[0], off);
      ItemsAreOneRun(e, vs[1..], off + |EncElem(e, vs[0], off)|);
      FlatConcat(ElemLeaves(e, vs[0]), ItemLeaves(e, vs[1..]), off);
    }
  }

  lemma HeadIsOneRun(k: Kind, e: Elem, n: nat, off: nat)
    ensures EncHead(k, e, n, off) == Flat(HeadLeaves(k, e, n), off)
  {
    hide EncPrim, Pad, SizeOf, WireAlignment;
    match k
    case Scalar =>
    case Sequence => FlatOne(Num(UInt32, n % U32_LIMIT), off);
    case Array(_) =>
      if e.Primitive? {
        FlatOne(Gap(e.prim), off);
      }
  }

  /** Serializing a message writes its leaves one after the other, whatever structures they are nested in. */
  lemma {:induction false} MessageIsOneRun(fs: Fields, ms: Members, off: nat)
    ensures EncFields(fs, ms, off) == Flat(FieldLeaves(fs, ms), off)
    decreases fs, 0
  {
    hide EncHead, EncElems, HeadLeaves, ItemLeaves, Flat;
    match (fs, ms)
    case (Field(k, e, rest), Member(items, tail)) =>
      var head := EncMember(k, e, items, off);
      MemberIsOneRun(k, e, items, off);
      MessageIsOneRun(rest, tail, off + |head|);
      FlatConcat(HeadLeaves(k, e, |items|) + ItemLeaves(e, items), FieldLeaves(rest, tail), off);
    case _ => FlatNone(off);
  }

  lemma MemberIsOneRun(k: Kind, e: Elem, items: seq<Value>, off: nat)
    ensures EncMember(k, e, items, off) == Flat(HeadLeaves(k, e, |items|) + ItemLeaves(e, items), off)
    decreases e, 2
  {
    hide EncHead, EncElems, HeadLeaves, ItemLeaves, Flat;
    HeadIsOneRun(k, e, |items|, off);
    ItemsAreOneRun(e, items, off + |EncHead(k, e, |items|, off)|);
    FlatConcat(HeadLeaves(k, e, |items|), ItemLeaves(e, items), off);
  }

  // --- the shipped messages ------------------------------------------------------------

  lemma OneField(e: Elem, v: Value, rest: Fields, tail: Members)
    ensures FieldLeaves(Field(Scalar, e, rest), Member([v], tail)) == ElemLeaves(e, v) + FieldLeaves(rest, tail)
  {
    hide ElemLeaves;
    assert [v][1..] == [] && ItemLeaves(e, []) == [];
    assert ItemLeaves(e, [v]) == ElemLeaves(e, v) + [];
    assert HeadLeaves(Scalar, e, 1) == [];
  }

  lemma NumField(p: Prim, bits: nat, rest: Fields, tail: Members)
    ensures FieldLeaves(Field(Scalar, Primitive(p), rest), Member([Bits(bits)], tail))
            == [Num(p, bits)] + FieldLeaves(rest, tail)
  {
    hide FieldLeaves;
    OneField(Primitive(p), Bits(bits), rest, tail);
  }

  lemma StrField(s: seq<byte>, rest: Fields, tail: Members)
    ensures FieldLeaves(Field(Scalar, Text, rest), Member([Chars(s)], tail)) == [Str(s)] + FieldLeaves(rest, tail)
  {
    hide FieldLeaves;
    OneField(Text, Chars(s), rest, tail);
  }

  lemma StructField(fs: Fields, ms: Members, rest: Fields, tail: Members)
    ensures FieldLeaves(Field(Scalar, Nested(fs), rest), Member([Struct(ms)], tail))
            == FieldLeaves(fs, ms) + FieldLeaves(rest, tail)
  {
    hide FieldLeaves;
    OneField(Nested(fs), Struct(ms), rest, tail);
  }

  lemma ListField(k: Kind, p: Prim, vs: seq<Value>, rest: Fields, tail: Members)
    requires forall i :: 0 <= i < |vs| ==> vs[i].Bits?
    ensures FieldLeaves(Field(k, Primitive(p), rest), Member(vs, tail))
            == HeadLeaves(k, Primitive(p), |vs|) + Nums(p, vs) + FieldLeaves(rest, tail)
  {
    hide HeadLeaves;
    ListLeaves(p, vs);
  }

  lemma {:induction false} ListLeaves(p: Prim, vs: seq<Value>)
    requires forall i :: 0 <= i < |vs| ==> vs[i].Bits?
    ensures ItemLeaves(Primitive(p), vs) == Nums(p, vs)
  {
    if vs != [] {
      ListLeaves(p, vs[1..]);
      assert ElemLeaves(Primitive(p), vs[0]) == [Num(p, vs[0].bits)];
    }
  }

  function Nums(p: Prim, vs: seq<Value>): (ls: seq<Leaf>)
    requires forall i :: 0 <= i < |vs| ==> vs[i].Bits?
  {
    seq(|vs|, i requires 0 <= i < |vs| => Num(p, vs[i].bits))
  }

  lemma NoField()
    ensures FieldLeaves(End, Stop) == []
  {
  }

  function HeaderRun(h: Header): seq<Leaf> {
    [Num(Schema.Int32, if h.stamp.sec < 0 then 0x1_0000_0000 + h.stamp.sec else h.stamp.sec),
     Num(Schema.UInt32, h.stamp.nanosec), Str(h.frameId)]
  }

  function Double(bits: float64): Leaf {
    Num(Schema.Float64, bits)
  }

  function PoseRun(p: Pose): seq<Leaf> {
    [Double(p.position.x), Double(p.position.y), Double(p.position.z),
     Double(p.orientation.x), Double(p.orientation.y), Double(p.orientation.z), Double(p.orientation.w)]
  }

  function DoubleRun(ds: seq<float64>): seq<Leaf> {
    seq(|ds|, i requires 0 <= i < |ds| => Double(ds[i]))
  }

  lemma HeaderLeaves(h: Header)
    ensures FieldLeaves(HEADER, HeaderValue(h)) == HeaderRun(h)
  {
    hide FieldLeaves;
    var sec := PackInt32(h.stamp.sec);
    NoField();
    NumField(Schema.Int32, sec, Field(Scalar, U32, End), Member([Bits(h.stamp.nanosec)], Stop));
    NumField(Schema.UInt32, h.stamp.nanosec, End, Stop);
    StructField(TIME, TimeValue(h.stamp), Field(Scalar, Text, End), Member([Chars(h.frameId)], Stop));
    StrField(h.frameId, End, Stop);
  }

  lemma TripleLeaves(t: Triple)
    ensures FieldLeaves(POINT, TripleValue(t)) == [Double(t.x), Double(t.y), Double(t.z)]
  {
    hide FieldLeaves;
    NoField();
    NumField(Schema.Float64, t.z, End, Stop);
    NumField(Schema.Float64, t.y, POINT.rest.rest, Member([Bits(t.z)], Stop));
    NumField(Schema.Float64, t.x, POINT.rest, Member([Bits(t.y)], Member([Bits(t.z)], Stop)));
  }

  lemma QuaternionLeaves(q: Quaternion)
    ensures FieldLeaves(QUATERNION, QuaternionValue(q)) == [Double(q.x), Double(q.y), Double(q.z), Double(q.w)]
  {
    hide FieldLeaves;
    TripleLeaves(Triple(q.y, q.z, q.w));
    NumField(Schema.Float64, q.x, POINT, TripleValue(Triple(q.y, q.z, q.w)));
  }

  lemma PoseLeaves(p: Pose)
    ensures FieldLeaves(POSE, PoseValue(p)) == PoseRun(p)
  {
    hide FieldLeaves;
    NoField();
    TripleLeaves(p.position);
    QuaternionLeaves(p.orientation);
    StructField(QUATERNION, QuaternionValue(p.orientation), End, Stop);
    StructField(POINT, TripleValue(p.position), POSE.rest, Member([Struct(QuaternionValue(p.orientation))], Stop));
  }

  lemma StringLayout(data: seq<byte>, off: nat)
    ensures EncFields(STRING, StringValue(data), off) == Flat([Str(data)], off)
  {
    hide FieldLeaves, EncFields, Flat;
    NoField();
    StrField(data, End, Stop);
    assert FieldLeaves(STRING, StringValue(data)) == [Str(data)];
    MessageIsOneRun(STRING, StringValue(data), off);
  }

  /** The stamp's seconds in two's complement, its nanoseconds, the frame, then the seven coordinates. */
  lemma PoseStampedLayout(m: PoseStamped, off: nat)
    ensures EncFields(POSE_STAMPED, PoseStampedValue(m), off) == Flat(HeaderRun(m.header) + PoseRun(m.pose), off)
  {
    hide FieldLeaves, EncFields, Flat, HeaderRun, PoseRun;
    NoField();
    HeaderLeaves(m.header);
    PoseLeaves(m.pose);
    StructField(POSE, PoseValue(m.pose), End, Stop);
    StructField(HEADER, HeaderValue(m.header), POSE_STAMPED.rest, Member([Struct(PoseValue(m.pose))], Stop));
    assert FieldLeaves(POSE_STAMPED, PoseStampedValue(m)) == HeaderRun(m.header) + PoseRun(m.pose);
    MessageIsOneRun(POSE_STAMPED, PoseStampedValue(m), off);
  }

  lemma TransformStampedLayout(m: TransformStamped, off: nat)
    ensures EncFields(TRANSFORM_STAMPED, TransformStampedValue(m), off)
            == Flat(HeaderRun(m.header) + [Str(m.childFrameId)] + PoseRun(m.transform), off)
  {
    hide FieldLeaves, EncFields, Flat, HeaderRun, PoseRun;
    NoField();
    HeaderLeaves(m.header);
    PoseLeaves(m.transform);
    var fs, ms := TRANSFORM_STAMPED, TransformStampedValue(m);
    StructField(POSE, PoseValue(m.transform), End, Stop);
    StrField(m.childFrameId, fs.rest.rest, ms.rest.rest);
    StructField(HEADER, HeaderValue(m.header), fs.rest, ms.rest);
    assert FieldLeaves(fs, ms) == HeaderRun(m.header) + [Str(m.childFrameId)] + PoseRun(m.transform);
    MessageIsOneRun(fs, ms, off);
  }

  function OctetRun(data: seq<byte>): seq<Leaf> {
    seq(|data|, i requires 0 <= i < |data| => Num(UInt8, data[i]))
  }

  function ImageRun(m: Image): seq<Leaf> {
    HeaderRun(m.header)
    + [Num(Schema.UInt32, m.height), Num(Schema.UInt32, m.width), Str(m.encoding), Num(UInt8, m.isBigendian),
       Num(Schema.UInt32, m.step), Num(Schema.UInt32, |m.data| % U32_LIMIT)]
    + OctetRun(m.data)
  }

  lemma ImageLayout(m: Image, off: nat)
    ensures EncFields(IMAGE, ImageValue(m), off) == Flat(ImageRun(m), off)
  {
    hide FieldLeaves, EncFields, Flat, HeaderRun, ItemLeaves, Nums, ByteValues, OctetRun;
    NoField();
    HeaderLeaves(m.header);
    var fs, ms := IMAGE, ImageValue(m);
    var data := fs.rest.rest.rest.rest.rest.rest;
    var rest := ms.rest.rest.rest.rest.rest.rest;
    assert Nums(UInt8, ByteValues(m.data)) == OctetRun(m.data) by { NumsOfBytes(m.data); }
    ListField(Sequence, UInt8, ByteValues(m.data), End, Stop);
    assert FieldLeaves(data, rest) == [Num(Schema.UInt32, |m.data| % U32_LIMIT)] + OctetRun(m.data);
    NumField(Schema.UInt32, m.step, data, rest);
    NumField(UInt8, m.isBigendian, fs.rest.rest.rest.rest.rest, ms.rest.rest.rest.rest.rest);
    StrField(m.encoding, fs.rest.rest.rest.rest, ms.rest.rest.rest.rest);
    NumField(Schema.UInt32, m.width, fs.rest.rest.rest, ms.rest.rest.rest);
    NumField(Schema.UInt32, m.height, fs.rest.rest, ms.rest.rest);
    StructField(HEADER, HeaderValue(m.header), fs.rest, ms.rest);
    assert FieldLeaves(fs, ms) == ImageRun(m);
    MessageIsOneRun(fs, ms, off);
  }

  lemma NumsOfBytes(data: seq<byte>)
    ensures Nums(UInt8, ByteValues(data)) == OctetRun(data)
  {
  }

  function RoiRun(r: RegionOfInterest): seq<Leaf> {
    [Num(Schema.UInt32, r.xOffset), Num(Schema.UInt32, r.yOffset), Num(Schema.UInt32, r.height),
     Num(Schema.UInt32, r.width), Num(Bool, if r.doRectify then 1 else 0)]
  }

  lemma RoiLeaves(r: RegionOfInterest)
    ensures FieldLeaves(ROI, RoiValue(r)) == RoiRun(r)
  {
    hide FieldLeaves;
    var fs, ms := ROI, RoiValue(r);
    NoField();
    NumField(Bool, if r.doRectify then 1 else 0, End, Stop);
    NumField(Schema.UInt32, r.width, fs.rest.rest.rest.rest, ms.rest.rest.rest.rest);
    NumField(Schema.UInt32, r.height, fs.rest.rest.rest, ms.rest.rest.rest);
    NumField(Schema.UInt32, r.yOffset, fs.rest.rest, ms.rest.rest);
    NumField(Schema.UInt32, r.xOffset, fs.rest, ms.rest);
  }

  function BinningRun(m: CameraInfo): seq<Leaf> {
    [Num(Schema.UInt32, m.binningX), Num(Schema.UInt32, m.binningY)] + RoiRun(m.roi)
  }

  lemma BinningLeaves(m: CameraInfo)
    ensures FieldLeaves(BINNING, BinningValue(m)) == BinningRun(m)
  {
    hide FieldLeaves, RoiRun;
    var fs, ms := BINNING, BinningValue(m);
    NoField();
    RoiLeaves(m.roi);
    StructField(ROI, RoiValue(m.roi), End, Stop);
    NumField(Schema.UInt32, m.binningY, fs.rest.rest, ms.rest.rest);
    NumField(Schema.UInt32, m.binningX, fs.rest, ms.rest);
  }

  function CameraHeadRun(m: CameraInfo): seq<Leaf> {
    HeaderRun(m.header) + [Num(Schema.UInt32, m.height), Num(Schema.UInt32, m.width), Str(m.distortionModel)]
  }

  lemma CameraHeadLeaves(m: CameraInfo)
    ensures FieldLeaves(CAMERA_HEAD, CameraHeadValue(m)) == CameraHeadRun(m)
  {
    hide FieldLeaves, HeaderRun;
    var fs, ms := CAMERA_HEAD, CameraHeadValue(m);
    NoField();
    HeaderLeaves(m.header);
    StrField(m.distortionModel, End, Stop);
    NumField(Schema.UInt32, m.width, fs.rest.rest.rest, ms.rest.rest.rest);
    NumField(Schema.UInt32, m.height, fs.rest.rest, ms.rest.rest);
    StructField(HEADER, HeaderValue(m.header), fs.rest, ms.rest);
  }

  lemma NumsOfDoubles(ds: seq<float64>)
    ensures Nums(Schema.Float64, DoubleValues(ds)) == DoubleRun(ds)
  {
  }

  lemma DoublesAreOneRun(ds: seq<float64>, off: nat)
    ensures EncElems(F64, DoubleValues(ds), off) == Flat(DoubleRun(ds), off)
  {
    hide EncElems, Flat, ItemLeaves, Nums, DoubleValues;
    NumsOfDoubles(ds);
    ListLeaves(Schema.Float64, DoubleValues(ds));
    ItemsAreOneRun(F64, DoubleValues(ds), off);
  }

  lemma DoubleListIsOneRun(ds: seq<float64>, off: nat)
    ensures EncMember(Sequence, F64, DoubleValues(ds), off)
            == Flat([Num(Schema.UInt32, |ds| % U32_LIMIT)] + DoubleRun(ds), off)
  {
    hide EncMember, Flat, ItemLeaves, Nums, DoubleValues;
    NumsOfDoubles(ds);
    ListLeaves(Schema.Float64, DoubleValues(ds));
    MemberIsOneRun(Sequence, F64, DoubleValues(ds), off);
  }

  /** A CameraInfo with lists of any lengths: only the first list is counted, k, r and p follow as bare doubles. */
  lemma CameraInfoLayout(m: CameraInfo, off: nat)
    ensures CameraInfoOctets(m, off)
            == Flat(CameraHeadRun(m) + ([Num(Schema.UInt32, |m.d| % U32_LIMIT)] + DoubleRun(m.d))
                    + DoubleRun(m.k + m.r + m.p) + BinningRun(m), off)
  {
    hide EncFields, EncMember, EncElems, Flat, CameraHeadRun, BinningRun, DoubleRun, DoubleValues, BinningValue,
         CameraHeadValue, FieldLeaves;
    var head, d := CameraHeadRun(m), [Num(Schema.UInt32, |m.d| % U32_LIMIT)] + DoubleRun(m.d);
    var lists, end := DoubleRun(m.k + m.r + m.p), BinningRun(m);
    CameraHeadLeaves(m);
    MessageIsOneRun(CAMERA_HEAD, CameraHeadValue(m), off);
    var a := off + |Flat(head, off)|;
    DoubleListIsOneRun(m.d, a);
    var b := a + |Flat(d, a)|;
    DoublesAreOneRun(m.k + m.r + m.p, b);
    var c := b + |Flat(lists, b)|;
    BinningLeaves(m);
    MessageIsOneRun(BINNING, BinningValue(m), c);
    FlatConcat(head, d, off);
    FlatConcat(head + d, lists, off);
    FlatConcat(head + d + lists, end, off);
  }
}
