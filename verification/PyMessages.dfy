// The message types shipped with pyrcllite against the schemas the C++ generator derives from their .msg files.
module PyMessages {
  import opened Bytes
  import opened Schema
  import opened Encoding
  import opened Decoding
  import opened PyCodec
  import opened LengthGuard
  import opened Wrappers
  import Cdr

  // --- schemas -----------------------------------------------------------------

  const U32 := Primitive(Schema.UInt32)
  const F64 := Primitive(Schema.Float64)

  const TIME: Fields := Field(Scalar, Primitive(Schema.Int32), Field(Scalar, U32, End))
  const HEADER: Fields := Field(Scalar, Nested(TIME), Field(Scalar, Text, End))
  const POINT: Fields := Field(Scalar, F64, Field(Scalar, F64, Field(Scalar, F64, End)))
  const QUATERNION: Fields := Field(Scalar, F64, Field(Scalar, F64, Field(Scalar, F64, Field(Scalar, F64, End))))
  const POSE: Fields := Field(Scalar, Nested(POINT), Field(Scalar, Nested(QUATERNION), End))
  const ROI: Fields :=
    Field(Scalar, U32, Field(Scalar, U32, Field(Scalar, U32, Field(Scalar, U32,
    Field(Scalar, Primitive(Bool), End)))))

  const EMPTY: Fields := End
  const STRING: Fields := Field(Scalar, Text, End)
  const POSE_STAMPED: Fields := Field(Scalar, Nested(HEADER), Field(Scalar, Nested(POSE), End))
  const TRANSFORM_STAMPED: Fields := Field(Scalar, Nested(HEADER), Field(Scalar, Text, Field(Scalar, Nested(POSE), End)))
  const IMAGE: Fields :=
    Field(Scalar, Nested(HEADER), Field(Scalar, U32, Field(Scalar, U32, Field(Scalar, Text,
    Field(Scalar, Primitive(UInt8), Field(Scalar, U32, Field(Sequence, Primitive(UInt8), End)))))))
  // CameraInfo in three stretches, each ending in the next.
  const BINNING: Fields := Field(Scalar, U32, Field(Scalar, U32, Field(Scalar, Nested(ROI), End)))
  const MATRICES: Fields :=
    Field(Sequence, F64, Field(Array(9), F64, Field(Array(9), F64, Field(Array(12), F64, BINNING))))
  const CAMERA_HEAD: Fields :=
    Field(Scalar, Nested(HEADER), Field(Scalar, U32, Field(Scalar, U32, Field(Scalar, Text, End))))
  const CAMERA_INFO: Fields :=
    Field(Scalar, Nested(HEADER), Field(Scalar, U32, Field(Scalar, U32, Field(Scalar, Text, MATRICES))))

  // --- the dataclasses and the schema values they stand for -----------------------

  datatype Time = Time(sec: int32, nanosec: uint32)
  datatype Header = Header(stamp: Time, frameId: seq<byte>)
  /** Point and Vector3. */
  datatype Triple = Triple(x: float64, y: float64, z: float64)
  datatype Quaternion = Quaternion(x: float64, y: float64, z: float64, w: float64)
  /** Pose and Transform. */
  datatype Pose = Pose(position: Triple, orientation: Quaternion)
  datatype PoseStamped = PoseStamped(header: Header, pose: Pose)
  datatype TransformStamped = TransformStamped(header: Header, childFrameId: seq<byte>, transform: Pose)
  datatype Image = Image(header: Header, height: uint32, width: uint32, encoding: seq<byte>,
                         isBigendian: byte, step: uint32, data: seq<byte>)
  datatype RegionOfInterest = RegionOfInterest(xOffset: uint32, yOffset: uint32, height: uint32, width: uint32,
                                               doRectify: bool)
  datatype CameraInfo = CameraInfo(header: Header, height: uint32, width: uint32, distortionModel: seq<byte>,
                                   d: seq<float64>, k: seq<float64>, r: seq<float64>, p: seq<float64>,
                                   binningX: uint32, binningY: uint32, roi: RegionOfInterest)

  function TimeValue(t: Time): Members {
    Member([Bits(PackInt32(t.sec))], Member([Bits(t.nanosec)], Stop))
  }

  function HeaderValue(h: Header): Members {
    Member([Struct(TimeValue(h.stamp))], Member([Chars(h.frameId)], Stop))
  }

  function TripleValue(t: Triple): Members {
    Member([Bits(t.x)], Member([Bits(t.y)], Member([Bits(t.z)], Stop)))
  }

  function QuaternionValue(q: Quaternion): Members {
    Member([Bits(q.x)], Member([Bits(q.y)], Member([Bits(q.z)], Member([Bits(q.w)], Stop))))
  }

  function PoseValue(p: Pose): Members {
    Member([Struct(TripleValue(p.position))], Member([Struct(QuaternionValue(p.orientation))], Stop))
  }

  function StringValue(data: seq<byte>): Members {
    Member([Chars(data)], Stop)
  }

  function PoseStampedValue(m: PoseStamped): Members {
    Member([Struct(HeaderValue(m.header))], Member([Struct(PoseValue(m.pose))], Stop))
  }

  function TransformStampedValue(m: TransformStamped): Members {
    Member([Struct(HeaderValue(m.header))], Member([Chars(m.childFrameId)], Member([Struct(PoseValue(m.transform))], Stop)))
  }

  function ImageValue(m: Image): Members {
    Member([Struct(HeaderValue(m.header))], Member([Bits(m.height)], Member([Bits(m.width)], Member([Chars(m.encoding)],
    Member([Bits(m.isBigendian)], Member([Bits(m.step)], Member(ByteValues(m.data), Stop)))))))
  }

  function RoiValue(r: RegionOfInterest): Members {
    Member([Bits(r.xOffset)], Member([Bits(r.yOffset)], Member([Bits(r.height)], Member([Bits(r.width)],
    Member([Bits(if r.doRectify then 1 else 0)], Stop)))))
  }

  function BinningValue(m: CameraInfo): Members {
    Member([Bits(m.binningX)], Member([Bits(m.binningY)], Member([Struct(RoiValue(m.roi))], Stop)))
  }

  function MatricesValue(m: CameraInfo): Members {
    Member(DoubleValues(m.d), Member(DoubleValues(m.k), Member(DoubleValues(m.r), Member(DoubleValues(m.p),
    BinningValue(m)))))
  }

  function CameraInfoValue(m: CameraInfo): Members {
    Member([Struct(HeaderValue(m.header))], Member([Bits(m.height)], Member([Bits(m.width)],
    Member([Chars(m.distortionModel)], MatricesValue(m)))))
  }

  predicate Fits(s: seq<byte>) { |s| + 1 < U32_LIMIT }

  // --- writing: what is still owed ------------------------------------------------

  ghost predicate Owed(target: seq<byte>, buf: seq<byte>, fs: Fields, ms: Members) {
    |buf| >= 4 && target == buf + EncFields(fs, ms, |buf| - 4)
  }

  lemma Borrow(buf: seq<byte>, fs: Fields, ms: Members) returns (target: seq<byte>)
    requires |buf| >= 4
    ensures target == buf + EncFields(fs, ms, |buf| - 4) && Owed(target, buf, fs, ms)
  {
    target := buf + EncFields(fs, ms, |buf| - 4);
  }

  lemma Pay(target: seq<byte>, before: seq<byte>, after: seq<byte>, fs: Fields, ms: Members)
      returns (rest: Fields, tail: Members)
    requires Owed(target, before, fs, ms) && fs.Field? && ms.Member?
    requires after == before + EncMember(fs.kind, fs.elem, ms.items, |before| - 4)
    ensures rest == fs.rest && tail == ms.rest && Owed(target, after, rest, tail)
  {
    hide EncMember;
    rest, tail := fs.rest, ms.rest;
    ConcatAssociates(before, EncMember(fs.kind, fs.elem, ms.items, |before| - 4), EncFields(rest, tail, |after| - 4));
  }

  lemma PayOne(target: seq<byte>, before: seq<byte>, after: seq<byte>, fs: Fields, ms: Members)
      returns (rest: Fields, tail: Members)
    requires Owed(target, before, fs, ms) && fs.Field? && ms.Member? && fs.kind.Scalar? && |ms.items| == 1
    requires after == before + EncElem(fs.elem, ms.items[0], |before| - 4)
    ensures rest == fs.rest && tail == ms.rest && Owed(target, after, rest, tail)
  {
    hide EncElem, EncMember, EncFields;
    ScalarMember(fs.elem, ms.items, |before| - 4);
    rest, tail := Pay(target, before, after, fs, ms);
  }

  lemma Settled(target: seq<byte>, buf: seq<byte>)
    requires Owed(target, buf, End, Stop)
    ensures buf == target
  {
    assert buf + EncFields(End, Stop, |buf| - 4) == buf;
  }

  // --- the writers ------------------------------------------------------------------

  /** std_msgs/Empty. */
  method WriteEmpty(w: PyWriter)
    requires w.Valid()
    ensures w.buf == old(w.buf) + EncFields(EMPTY, Stop, |old(w.buf)| - 4)
  {
    assert w.buf + [] == w.buf;
  }

  /** std_msgs/String. */
  method WriteStringMessage(w: PyWriter, data: seq<byte>)
    requires w.Valid() && Fits(data)
    modifies w
    ensures w.Valid() && w.buf == old(w.buf) + EncFields(STRING, StringValue(data), |old(w.buf)| - 4)
  {
    hide EncFields, EncText, Owed;
    ghost var fs, ms := STRING, StringValue(data);
    ghost var target := Borrow(w.buf, fs, ms);
    w.String(data);
    fs, ms := PayOne(target, old(w.buf), w.buf, fs, ms);
    Settled(target, w.buf);
  }

  method WriteTime(w: PyWriter, m: Time)
    requires w.Valid()
    modifies w
    ensures w.Valid() && w.buf == old(w.buf) + EncFields(TIME, TimeValue(m), |old(w.buf)| - 4)
  {
    hide EncFields, EncPrim, EncText, Owed;
    ghost var fs, ms := TIME, TimeValue(m);
    ghost var target := Borrow(w.buf, fs, ms);
    w.Int32(m.sec);
    fs, ms := PayOne(target, old(w.buf), w.buf, fs, ms);
    ghost var before := w.buf;
    w.UInt32(m.nanosec);
    fs, ms := PayOne(target, before, w.buf, fs, ms);
    Settled(target, w.buf);
  }

  method WriteHeader(w: PyWriter, m: Header)
    requires w.Valid() && Fits(m.frameId)
    modifies w
    ensures w.Valid() && w.buf == old(w.buf) + EncFields(HEADER, HeaderValue(m), |old(w.buf)| - 4)
  {
    hide EncFields, EncPrim, EncText, Owed;
    ghost var fs, ms := HEADER, HeaderValue(m);
    ghost var target := Borrow(w.buf, fs, ms);
    WriteTime(w, m.stamp);
    fs, ms := PayOne(target, old(w.buf), w.buf, fs, ms);
    ghost var before := w.buf;
    w.String(m.frameId);
    fs, ms := PayOne(target, before, w.buf, fs, ms);
    Settled(target, w.buf);
  }

  method WriteTriple(w: PyWriter, m: Triple)
    requires w.Valid()
    modifies w
    ensures w.Valid() && w.buf == old(w.buf) + EncFields(POINT, TripleValue(m), |old(w.buf)| - 4)
  {
    hide EncFields, EncPrim, EncText, Owed;
    ghost var fs, ms := POINT, TripleValue(m);
    ghost var target := Borrow(w.buf, fs, ms);
    w.Float64(m.x);
    fs, ms := PayOne(target, old(w.buf), w.buf, fs, ms);
    ghost var before := w.buf;
    w.Float64(m.y);
    fs, ms := PayOne(target, before, w.buf, fs, ms);
    before := w.buf;
    w.Float64(m.z);
    fs, ms := PayOne(target, before, w.buf, fs, ms);
    Settled(target, w.buf);
  }

  method WriteQuaternion(w: PyWriter, m: Quaternion)
    requires w.Valid()
    modifies w
    ensures w.Valid() && w.buf == old(w.buf) + EncFields(QUATERNION, QuaternionValue(m), |old(w.buf)| - 4)
  {
    hide EncFields, EncPrim, EncText, Owed;
    ghost var fs, ms := QUATERNION, QuaternionValue(m);
    ghost var target := Borrow(w.buf, fs, ms);
    w.Float64(m.x);
    fs, ms := PayOne(target, old(w.buf), w.buf, fs, ms);
    ghost var before := w.buf;
    w.Float64(m.y);
    fs, ms := PayOne(target, before, w.buf, fs, ms);
    before := w.buf;
    w.Float64(m.z);
    fs, ms := PayOne(target, before, w.buf, fs, ms);
    before := w.buf;
    w.Float64(m.w);
    fs, ms := PayOne(target, before, w.buf, fs, ms);
    Settled(target, w.buf);
  }

  method WritePose(w: PyWriter, m: Pose)
    requires w.Valid()
    modifies w
    ensures w.Valid() && w.buf == old(w.buf) + EncFields(POSE, PoseValue(m), |old(w.buf)| - 4)
  {
    hide EncFields, EncPrim, EncText, Owed;
    ghost var fs, ms := POSE, PoseValue(m);
    ghost var target := Borrow(w.buf, fs, ms);
    WriteTriple(w, m.position);
    fs, ms := PayOne(target, old(w.buf), w.buf, fs, ms);
    ghost var before := w.buf;
    WriteQuaternion(w, m.orientation);
    fs, ms := PayOne(target, before, w.buf, fs, ms);
    Settled(target, w.buf);
  }

  method WritePoseStamped(w: PyWriter, m: PoseStamped)
    requires w.Valid() && Fits(m.header.frameId)
    modifies w
    ensures w.Valid() && w.buf == old(w.buf) + EncFields(POSE_STAMPED, PoseStampedValue(m), |old(w.buf)| - 4)
  {
    hide EncFields, EncPrim, EncText, Owed;
    ghost var fs, ms := POSE_STAMPED, PoseStampedValue(m);
    ghost var target := Borrow(w.buf, fs, ms);
    WriteHeader(w, m.header);
    fs, ms := PayOne(target, old(w.buf), w.buf, fs, ms);
    ghost var before := w.buf;
    WritePose(w, m.pose);
    fs, ms := PayOne(target, before, w.buf, fs, ms);
    Settled(target, w.buf);
  }

  method WriteTransformStamped(w: PyWriter, m: TransformStamped)
    requires w.Valid() && Fits(m.header.frameId) && Fits(m.childFrameId)
    modifies w
    ensures w.Valid() && w.buf == old(w.buf) + EncFields(TRANSFORM_STAMPED, TransformStampedValue(m), |old(w.buf)| - 4)
  {
    hide EncFields, EncPrim, EncText, Owed;
    ghost var fs, ms := TRANSFORM_STAMPED, TransformStampedValue(m);
    ghost var target := Borrow(w.buf, fs, ms);
    WriteHeader(w, m.header);
    fs, ms := PayOne(target, old(w.buf), w.buf, fs, ms);
    ghost var before := w.buf;
    w.String(m.childFrameId);
    fs, ms := PayOne(target, before, w.buf, fs, ms);
    before := w.buf;
    WritePose(w, m.transform);
    fs, ms := PayOne(target, before, w.buf, fs, ms);
    Settled(target, w.buf);
  }

  method WriteImage(w: PyWriter, m: Image)
    requires w.Valid() && Fits(m.header.frameId) && Fits(m.encoding) && |m.data| < U32_LIMIT
    modifies w
    ensures w.Valid() && w.buf == old(w.buf) + EncFields(IMAGE, ImageValue(m), |old(w.buf)| - 4)
  {
    hide EncFields, EncMember, EncElems, EncPrim, EncText, DoubleValues, ByteValues, TypedAll, Pad, SizeOf, Owed;
    ghost var fs, ms := IMAGE, ImageValue(m);
    ghost var target := Borrow(w.buf, fs, ms);
    WriteHeader(w, m.header);
    fs, ms := PayOne(target, old(w.buf), w.buf, fs, ms);
    ghost var before := w.buf;
    w.UInt32(m.height);
    fs, ms := PayOne(target, before, w.buf, fs, ms);
    before := w.buf;
    w.UInt32(m.width);
    fs, ms := PayOne(target, before, w.buf, fs, ms);
    before := w.buf;
    w.String(m.encoding);
    fs, ms := PayOne(target, before, w.buf, fs, ms);
    before := w.buf;
    w.Byte(m.isBigendian);
    fs, ms := PayOne(target, before, w.buf, fs, ms);
    before := w.buf;
    w.UInt32(m.step);
    fs, ms := PayOne(target, before, w.buf, fs, ms);
    before := w.buf;
    w.ByteSequence(m.data);
    fs, ms := Pay(target, before, w.buf, fs, ms);
    Settled(target, w.buf);
  }

  method WriteRegionOfInterest(w: PyWriter, m: RegionOfInterest)
    requires w.Valid()
    modifies w
    ensures w.Valid() && w.buf == old(w.buf) + EncFields(ROI, RoiValue(m), |old(w.buf)| - 4)
  {
    hide EncFields, EncPrim, EncText, Owed;
    ghost var fs, ms := ROI, RoiValue(m);
    ghost var target := Borrow(w.buf, fs, ms);
    w.UInt32(m.xOffset);
    fs, ms := PayOne(target, old(w.buf), w.buf, fs, ms);
    ghost var before := w.buf;
    w.UInt32(m.yOffset);
    fs, ms := PayOne(target, before, w.buf, fs, ms);
    before := w.buf;
    w.UInt32(m.height);
    fs, ms := PayOne(target, before, w.buf, fs, ms);
    before := w.buf;
    w.UInt32(m.width);
    fs, ms := PayOne(target, before, w.buf, fs, ms);
    before := w.buf;
    w.Boolean(m.doRectify);
    fs, ms := PayOne(target, before, w.buf, fs, ms);
    Settled(target, w.buf);
  }

  method WriteBinning(w: PyWriter, m: CameraInfo)
    requires w.Valid()
    modifies w
    ensures w.Valid() && w.buf == old(w.buf) + EncFields(BINNING, BinningValue(m), |old(w.buf)| - 4)
  {
    hide EncFields, EncPrim, Owed;
    ghost var fs, ms := BINNING, BinningValue(m);
    ghost var target := Borrow(w.buf, fs, ms);
    w.UInt32(m.binningX);
    fs, ms := PayOne(target, old(w.buf), w.buf, fs, ms);
    ghost var before := w.buf;
    w.UInt32(m.binningY);
    fs, ms := PayOne(target, before, w.buf, fs, ms);
    before := w.buf;
    WriteRegionOfInterest(w, m.roi);
    fs, ms := PayOne(target, before, w.buf, fs, ms);
    Settled(target, w.buf);
  }

  /** What Python writes for the lists of any lengths: nothing marks where one ends and the next begins. */
  function MatricesOctets(m: CameraInfo, off: nat): seq<byte> {
    var d := EncMember(Sequence, F64, DoubleValues(m.d), off);
    var lists := EncElems(F64, DoubleValues(m.k + m.r + m.p), off + |d|);
    d + lists + EncFields(BINNING, BinningValue(m), off + |d| + |lists|)
  }

  method WriteMatrices(w: PyWriter, m: CameraInfo)
    requires w.Valid() && |m.d| < U32_LIMIT
    modifies w
    ensures w.Valid() && w.buf == old(w.buf) + MatricesOctets(m, |old(w.buf)| - 4)
  {
    hide EncFields, EncMember, EncElems, DoubleValues, BinningValue, Pad;
    ghost var off := |w.buf| - 4;
    w.DoubleSequence(m.d);
    ghost var listed := w.buf;
    w.Doubles(m.k);
    w.Doubles(m.r);
    w.Doubles(m.p);
    ThreeLists(listed, w.buf, m.k, m.r, m.p);
    WriteBinning(w, m);
    ghost var d := EncMember(Sequence, F64, DoubleValues(m.d), off);
    ghost var lists := EncElems(F64, DoubleValues(m.k + m.r + m.p), off + |d|);
    ConcatAssociates(old(w.buf), d, lists);
    ConcatAssociates(old(w.buf), d + lists, EncFields(BINNING, BinningValue(m), off + |d| + |lists|));
  }

  lemma ThreeLists(before: seq<byte>, after: seq<byte>, a: seq<float64>, b: seq<float64>, c: seq<float64>)
    requires |before| >= 4
    requires var one := before + EncElems(F64, DoubleValues(a), |before| - 4);
             var two := one + EncElems(F64, DoubleValues(b), |one| - 4);
             after == two + EncElems(F64, DoubleValues(c), |two| - 4)
    ensures after == before + EncElems(F64, DoubleValues(a + b + c), |before| - 4)
  {
    hide EncElems, DoubleValues;
    var off := |before| - 4;
    var x := EncElems(F64, DoubleValues(a), off);
    var y := EncElems(F64, DoubleValues(b), off + |x|);
    ListsRunTogether(a, b, off);
    ListsRunTogether(a + b, c, off);
    ConcatAssociates(before, x, y);
    ConcatAssociates(before, x + y, EncElems(F64, DoubleValues(c), off + |x + y|));
  }

  function CameraHeadValue(m: CameraInfo): Members {
    Member([Struct(HeaderValue(m.header))], Member([Bits(m.height)], Member([Bits(m.width)],
    Member([Chars(m.distortionModel)], Stop))))
  }

  function CameraInfoOctets(m: CameraInfo, off: nat): seq<byte> {
    var head := EncFields(CAMERA_HEAD, CameraHeadValue(m), off);
    head + MatricesOctets(m, off + |head|)
  }

  /** The lists k, r, p may have any lengths; see CameraInfoIsEncoded and PyRoundTrip for what they should be. */
  method WriteCameraInfo(w: PyWriter, m: CameraInfo)
    requires w.Valid() && Fits(m.header.frameId) && Fits(m.distortionModel) && |m.d| < U32_LIMIT
    modifies w
    ensures w.Valid() && w.buf == old(w.buf) + CameraInfoOctets(m, |old(w.buf)| - 4)
  {
    hide EncFields, EncPrim, EncText, MatricesOctets;
    ghost var fs, ms := CAMERA_HEAD, CameraHeadValue(m);
    ghost var target := Borrow(w.buf, fs, ms);
    WriteHeader(w, m.header);
    fs, ms := PayOne(target, old(w.buf), w.buf, fs, ms);
    ghost var before := w.buf;
    w.UInt32(m.height);
    fs, ms := PayOne(target, before, w.buf, fs, ms);
    before := w.buf;
    w.UInt32(m.width);
    fs, ms := PayOne(target, before, w.buf, fs, ms);
    before := w.buf;
    w.String(m.distortionModel);
    fs, ms := PayOne(target, before, w.buf, fs, ms);
    Settled(target, w.buf);
    before := w.buf;
    WriteMatrices(w, m);
    ConcatAssociates(old(w.buf), EncFields(CAMERA_HEAD, CameraHeadValue(m), |old(w.buf)| - 4),
                     MatricesOctets(m, |before| - 4));
  }

  // --- when the octets of a CameraInfo are those of its schema ---------------------------

  /** k, r and p have the lengths the message type fixes. */
  predicate HasFixedLengths(m: CameraInfo) {
    |m.k| == 9 && |m.r| == 9 && |m.p| == 12
  }

  lemma MatricesAreEncoded(m: CameraInfo, off: nat)
    requires HasFixedLengths(m)
    ensures MatricesOctets(m, off) == EncFields(MATRICES, MatricesValue(m), off)
  {
    hide EncMember, EncElems, DoubleValues, BinningValue, TypedAll, Pad, EncFields, MatricesValue;
    var d := EncMember(Sequence, F64, DoubleValues(m.d), off);
    var at := off + |d|;
    var k := EncElems(F64, DoubleValues(m.k), at);
    var r := EncElems(F64, DoubleValues(m.r), at + |k|);
    var p := EncElems(F64, DoubleValues(m.p), at + |k| + |r|);
    var end := EncFields(BINNING, BinningValue(m), at + |k| + |r| + |p|);
    ListsRunTogether(m.k, m.r, at);
    ListsRunTogether(m.k + m.r, m.p, at);
    assert |k + r| == |k| + |r| && |k + r + p| == |k| + |r| + |p|;
    assert MatricesOctets(m, off) == d + (k + r + p) + end;
    ArrayHeadRedundant(Schema.Float64, DoubleValues(m.k), at);
    ArrayHeadRedundant(Schema.Float64, DoubleValues(m.r), at + |k|);
    ArrayHeadRedundant(Schema.Float64, DoubleValues(m.p), at + |k| + |r|);
    var ms := MatricesValue(m);
    MatricesList(m);
    FourFieldsUnfold(MATRICES, ms, BINNING, BinningValue(m), off, d, k, r, p, end);
    assert d + (k + (r + (p + end))) == d + (k + r + p) + end;
  }

  lemma MatricesList(m: CameraInfo)
    ensures var ms := MatricesValue(m);
            && MATRICES == Field(Sequence, F64, Field(Array(9), F64, Field(Array(9), F64, Field(Array(12), F64, BINNING))))
            && ms == Member(DoubleValues(m.d), Member(DoubleValues(m.k), Member(DoubleValues(m.r),
                       Member(DoubleValues(m.p), BinningValue(m)))))
  {
    hide BinningValue, DoubleValues;
  }

  lemma FourFieldsUnfold(fs: Fields, ms: Members, gs: Fields, ns: Members, off: nat, a: seq<byte>, b: seq<byte>,
                         c: seq<byte>, d: seq<byte>, tail: seq<byte>)
    requires fs.Field? && fs.rest.Field? && fs.rest.rest.Field? && fs.rest.rest.rest.Field? && fs.rest.rest.rest.rest == gs
    requires ms.Member? && ms.rest.Member? && ms.rest.rest.Member? && ms.rest.rest.rest.Member?
    requires ms.rest.rest.rest.rest == ns
    requires a == EncMember(fs.kind, fs.elem, ms.items, off)
    requires b == EncMember(fs.rest.kind, fs.rest.elem, ms.rest.items, off + |a|)
    requires c == EncMember(fs.rest.rest.kind, fs.rest.rest.elem, ms.rest.rest.items, off + |a| + |b|)
    requires d == EncMember(fs.rest.rest.rest.kind, fs.rest.rest.rest.elem, ms.rest.rest.rest.items, off + |a| + |b| + |c|)
    requires tail == EncFields(gs, ns, off + |a| + |b| + |c| + |d|)
    ensures EncFields(fs, ms, off) == a + (b + (c + (d + tail)))
  {
    hide EncMember, EncFields;
    FieldUnfolds(fs.rest.rest.rest, ms.rest.rest.rest, off + |a| + |b| + |c|, d, tail);
    FieldUnfolds(fs.rest.rest, ms.rest.rest, off + |a| + |b|, c, d + tail);
    FieldUnfolds(fs.rest, ms.rest, off + |a|, b, c + (d + tail));
    FieldUnfolds(fs, ms, off, a, b + (c + (d + tail)));
  }

  /** With the fixed lengths Python writes exactly the octets of the schema. */
  lemma CameraInfoIsEncoded(m: CameraInfo, off: nat)
    requires HasFixedLengths(m)
    ensures CameraInfoOctets(m, off) == EncFields(CAMERA_INFO, CameraInfoValue(m), off)
  {
    hide EncFields, MatricesOctets, EncElem, MatricesValue;
    var h := EncElem(Nested(HEADER), Struct(HeaderValue(m.header)), off);
    var x := EncElem(U32, Bits(m.height), off + |h|);
    var y := EncElem(U32, Bits(m.width), off + |h| + |x|);
    var t := EncElem(Text, Chars(m.distortionModel), off + |h| + |x| + |y|);
    var tail := EncFields(MATRICES, MatricesValue(m), off + |h| + |x| + |y| + |t|);
    assert EncFields(End, Stop, off + |h| + |x| + |y| + |t|) == [] by { NoFields(off + |h| + |x| + |y| + |t|); }
    FourScalarsUnfold(CAMERA_HEAD, CameraHeadValue(m), End, Stop, off, h, x, y, t, []);
    FourScalarsUnfold(CAMERA_INFO, CameraInfoValue(m), MATRICES, MatricesValue(m), off, h, x, y, t, tail);
    assert h + (x + (y + (t + []))) == h + x + y + t;
    assert h + (x + (y + (t + tail))) == h + x + y + t + tail;
    MatricesAreEncoded(m, off + |h| + |x| + |y| + |t|);
  }

  lemma NoFields(off: nat)
    ensures EncFields(End, Stop, off) == []
  {
  }

  lemma FourScalarsUnfold(fs: Fields, ms: Members, gs: Fields, ns: Members, off: nat, a: seq<byte>, b: seq<byte>,
                          c: seq<byte>, d: seq<byte>, tail: seq<byte>)
    requires fs.Field? && fs.rest.Field? && fs.rest.rest.Field? && fs.rest.rest.rest.Field? && fs.rest.rest.rest.rest == gs
    requires fs.kind.Scalar? && fs.rest.kind.Scalar? && fs.rest.rest.kind.Scalar? && fs.rest.rest.rest.kind.Scalar?
    requires ms.Member? && ms.rest.Member? && ms.rest.rest.Member? && ms.rest.rest.rest.Member?
    requires ms.rest.rest.rest.rest == ns && |ms.items| == 1 && |ms.rest.items| == 1
    requires |ms.rest.rest.items| == 1 && |ms.rest.rest.rest.items| == 1
    requires a == EncElem(fs.elem, ms.items[0], off)
    requires b == EncElem(fs.rest.elem, ms.rest.items[0], off + |a|)
    requires c == EncElem(fs.rest.rest.elem, ms.rest.rest.items[0], off + |a| + |b|)
    requires d == EncElem(fs.rest.rest.rest.elem, ms.rest.rest.rest.items[0], off + |a| + |b| + |c|)
    requires tail == EncFields(gs, ns, off + |a| + |b| + |c| + |d|)
    ensures EncFields(fs, ms, off) == a + (b + (c + (d + tail)))
  {
    hide EncElem, EncMember, EncFields;
    ScalarMember(fs.elem, ms.items, off);
    ScalarMember(fs.rest.elem, ms.rest.items, off + |a|);
    ScalarMember(fs.rest.rest.elem, ms.rest.rest.items, off + |a| + |b|);
    ScalarMember(fs.rest.rest.rest.elem, ms.rest.rest.rest.items, off + |a| + |b| + |c|);
    FourFieldsUnfold(fs, ms, gs, ns, off, a, b, c, d, tail);
  }

  /** The doubles of k, r and p dealt out again by the fixed lengths. */
  function Resplit(m: CameraInfo): (r: CameraInfo)
    requires |m.k + m.r + m.p| == 30
    ensures HasFixedLengths(r) && (r == m <==> HasFixedLengths(m))
  {
    var all := m.k + m.r + m.p;
    assert HasFixedLengths(m) ==> all[..9] == m.k && all[9..18] == m.r && all[18..] == m.p;
    m.(k := all[..9], r := all[9..18], p := all[18..])
  }

  /** 30 doubles split in any other way give the octets of the message that splits them 9, 9, 12. */
  lemma ResplitIsEncoded(m: CameraInfo, off: nat)
    requires |m.k + m.r + m.p| == 30
    ensures CameraInfoOctets(m, off) == EncFields(CAMERA_INFO, CameraInfoValue(Resplit(m)), off)
  {
    hide EncFields, EncMember, EncElems, CameraInfoValue, CameraHeadValue, BinningValue;
    var n := Resplit(m);
    assert n.k + n.r + n.p == m.k + m.r + m.p;
    assert CameraHeadValue(n) == CameraHeadValue(m) && BinningValue(n) == BinningValue(m) by { SameButLists(m, n); }
    CameraInfoIsEncoded(n, off);
  }

  lemma SameButLists(m: CameraInfo, n: CameraInfo)
    requires n == m.(k := n.k, r := n.r, p := n.p)
    ensures CameraHeadValue(n) == CameraHeadValue(m) && BinningValue(n) == BinningValue(m)
  {
  }

  // --- reading: what is still to come ---------------------------------------------

  ghost predicate Continues(fs: Fields, data: seq<byte>, pos: nat, items: seq<Value>, rest: Fields, next: nat)
    requires 4 <= pos <= |data| && 4 <= next <= |data|
  {
    var full, tail := DecFields(fs, data, pos), DecFields(rest, data, next);
    (full.Ok? <==> tail.Ok?) && (tail.Ok? ==> full == Ok(Member(items, tail.value), tail.pos))
  }

  lemma TakeMember(fs: Fields, data: seq<byte>, pos: nat) returns (rest: Fields)
    requires 4 <= pos <= |data| && fs.Field?
    ensures rest == fs.rest
    ensures var d := DecMember(fs.kind, fs.elem, data, pos);
            if d.Ok? then Continues(fs, data, pos, d.value, rest, d.pos) else !DecFields(fs, data, pos).Ok?
  {
    hide DecMember;
    rest := fs.rest;
  }

  lemma TakeOne(fs: Fields, data: seq<byte>, pos: nat) returns (rest: Fields)
    requires 4 <= pos <= |data| && fs.Field? && fs.kind.Scalar?
    ensures rest == fs.rest
    ensures var d := DecElem(fs.elem, data, pos);
            if d.Ok? then Continues(fs, data, pos, [d.value], rest, d.pos) else !DecFields(fs, data, pos).Ok?
  {
    hide DecFields, DecElem, DecMember;
    ScalarRead(fs.elem, data, pos);
    rest := TakeMember(fs, data, pos);
  }

  /** Python's extra alignment behind an empty list is the alignment C++ makes in front of the array that follows. */
  lemma TakeList(fs: Fields, data: seq<byte>, pos: nat) returns (rest: Fields)
    requires 4 <= pos <= |data| && fs.Field? && fs.kind.Sequence? && fs.elem == F64
    requires fs.rest.Field? && fs.rest.kind.Array? && fs.rest.elem == F64
    ensures rest == fs.rest
    ensures var d := DecMember(Sequence, F64, data, pos);
            if !d.Ok? then !DecFields(fs, data, pos).Ok?
            else
              var settled := if d.value == [] then d.pos + Pad(d.pos - 4, 8) else d.pos;
              if settled > |data| then !DecFields(fs, data, pos).Ok?
              else Continues(fs, data, pos, d.value, rest, settled)
  {
    hide DecFields, DecElems, DecCount, Pad;
    rest := TakeMember(fs, data, pos);
    var list := DecMember(Sequence, F64, data, pos);
    if list.Ok? && list.value == [] {
      SkipAlignment(rest, data, list.pos);
    }
  }

  lemma SkipAlignment(fs: Fields, data: seq<byte>, pos: nat)
    requires 4 <= pos <= |data| && fs.Field? && fs.kind.Array? && fs.elem == F64
    ensures var q := pos + Pad(pos - 4, 8);
            if q > |data| then !DecFields(fs, data, pos).Ok? else DecFields(fs, data, pos) == DecFields(fs, data, q)
  {
    hide DecElems, Pad;
    assert Pad(pos + Pad(pos - 4, 8) - 4, 8) == 0 by { PadAligns(pos - 4, 8); }
  }

  lemma TakeEnd(data: seq<byte>, pos: nat)
    requires 4 <= pos <= |data|
    ensures DecFields(End, data, pos) == Ok(Stop, pos)
  {
  }

  // --- the readers ------------------------------------------------------------------

  method ReadEmpty(r: PyReader)
    requires r.Valid()
    ensures DecFields(EMPTY, r.data, r.pos) == Ok(Stop, r.pos)
  {
  }

  method ReadStringMessage(r: PyReader) returns (data: Option<seq<byte>>)
    requires r.Valid()
    modifies r
    ensures data.None? <==> !DecFields(STRING, r.data, old(r.pos)).Ok?
    ensures data.Some? ==> r.Valid() && DecFields(STRING, r.data, old(r.pos)) == Ok(StringValue(data.value), r.pos)
  {
    hide DecFields, DecText;
    ghost var fs := TakeOne(STRING, r.data, r.pos);
    data := r.String();
    if data.Some? {
      TakeEnd(r.data, r.pos);
    }
  }

  method ReadTime(r: PyReader) returns (m: Option<Time>)
    requires r.Valid()
    modifies r
    ensures m.None? <==> !DecFields(TIME, r.data, old(r.pos)).Ok?
    ensures m.Some? ==> r.Valid() && DecFields(TIME, r.data, old(r.pos)) == Ok(TimeValue(m.value), r.pos)
  {
    hide DecFields, DecPrim, DecText;
    ghost var fs := TIME;
    ghost var at := r.pos;
    var sec := r.Int32();
    fs := TakeOne(fs, r.data, at);
    if sec.None? { return None; }
    at := r.pos;
    var nanosec := r.UInt32();
    fs := TakeOne(fs, r.data, at);
    if nanosec.None? { return None; }
    TakeEnd(r.data, r.pos);
    m := Some(Time(sec.value, nanosec.value));
  }

  method ReadHeader(r: PyReader) returns (m: Option<Header>)
    requires r.Valid()
    modifies r
    ensures m.None? <==> !DecFields(HEADER, r.data, old(r.pos)).Ok?
    ensures m.Some? ==> r.Valid() && DecFields(HEADER, r.data, old(r.pos)) == Ok(HeaderValue(m.value), r.pos)
  {
    hide DecFields, DecPrim, DecText;
    ghost var fs := HEADER;
    ghost var at := r.pos;
    var stamp := ReadTime(r);
    fs := TakeOne(fs, r.data, at);
    if stamp.None? { return None; }
    at := r.pos;
    var frameId := r.String();
    fs := TakeOne(fs, r.data, at);
    if frameId.None? { return None; }
    TakeEnd(r.data, r.pos);
    m := Some(Header(stamp.value, frameId.value));
  }

  method ReadTriple(r: PyReader) returns (m: Option<Triple>)
    requires r.Valid()
    modifies r
    ensures m.None? <==> !DecFields(POINT, r.data, old(r.pos)).Ok?
    ensures m.Some? ==> r.Valid() && DecFields(POINT, r.data, old(r.pos)) == Ok(TripleValue(m.value), r.pos)
  {
    hide DecFields, DecPrim, DecText;
    ghost var fs := POINT;
    ghost var at := r.pos;
    var x := r.Float64();
    fs := TakeOne(fs, r.data, at);
    if x.None? { return None; }
    at := r.pos;
    var y := r.Float64();
    fs := TakeOne(fs, r.data, at);
    if y.None? { return None; }
    at := r.pos;
    var z := r.Float64();
    fs := TakeOne(fs, r.data, at);
    if z.None? { return None; }
    TakeEnd(r.data, r.pos);
    m := Some(Triple(x.value, y.value, z.value));
  }

  method ReadQuaternion(r: PyReader) returns (m: Option<Quaternion>)
    requires r.Valid()
    modifies r
    ensures m.None? <==> !DecFields(QUATERNION, r.data, old(r.pos)).Ok?
    ensures m.Some? ==> r.Valid() && DecFields(QUATERNION, r.data, old(r.pos)) == Ok(QuaternionValue(m.value), r.pos)
  {
    hide DecFields, DecPrim, DecText;
    ghost var fs := QUATERNION;
    ghost var at := r.pos;
    var x := r.Float64();
    fs := TakeOne(fs, r.data, at);
    if x.None? { return None; }
    at := r.pos;
    var y := r.Float64();
    fs := TakeOne(fs, r.data, at);
    if y.None? { return None; }
    at := r.pos;
    var z := r.Float64();
    fs := TakeOne(fs, r.data, at);
    if z.None? { return None; }
    at := r.pos;
    var w := r.Float64();
    fs := TakeOne(fs, r.data, at);
    if w.None? { return None; }
    TakeEnd(r.data, r.pos);
    m := Some(Quaternion(x.value, y.value, z.value, w.value));
  }

  method ReadPose(r: PyReader) returns (m: Option<Pose>)
    requires r.Valid()
    modifies r
    ensures m.None? <==> !DecFields(POSE, r.data, old(r.pos)).Ok?
    ensures m.Some? ==> r.Valid() && DecFields(POSE, r.data, old(r.pos)) == Ok(PoseValue(m.value), r.pos)
  {
    hide DecFields, DecPrim, DecText;
    ghost var fs := POSE;
    ghost var at := r.pos;
    var position := ReadTriple(r);
    fs := TakeOne(fs, r.data, at);
    if position.None? { return None; }
    at := r.pos;
    var orientation := ReadQuaternion(r);
    fs := TakeOne(fs, r.data, at);
    if orientation.None? { return None; }
    TakeEnd(r.data, r.pos);
    m := Some(Pose(position.value, orientation.value));
  }

  method ReadPoseStamped(r: PyReader) returns (m: Option<PoseStamped>)
    requires r.Valid()
    modifies r
    ensures m.None? <==> !DecFields(POSE_STAMPED, r.data, old(r.pos)).Ok?
    ensures m.Some? ==> r.Valid() && DecFields(POSE_STAMPED, r.data, old(r.pos)) == Ok(PoseStampedValue(m.value), r.pos)
  {
    hide DecFields, DecPrim, DecText;
    ghost var fs := POSE_STAMPED;
    ghost var at := r.pos;
    var header := ReadHeader(r);
    fs := TakeOne(fs, r.data, at);
    if header.None? { return None; }
    at := r.pos;
    var pose := ReadPose(r);
    fs := TakeOne(fs, r.data, at);
    if pose.None? { return None; }
    TakeEnd(r.data, r.pos);
    m := Some(PoseStamped(header.value, pose.value));
  }

  method ReadTransformStamped(r: PyReader) returns (m: Option<TransformStamped>)
    requires r.Valid()
    modifies r
    ensures m.None? <==> !DecFields(TRANSFORM_STAMPED, r.data, old(r.pos)).Ok?
    ensures m.Some? ==> r.Valid() && DecFields(TRANSFORM_STAMPED, r.data, old(r.pos)) == Ok(TransformStampedValue(m.value), r.pos)
  {
    hide DecFields, DecPrim, DecText;
    ghost var fs := TRANSFORM_STAMPED;
    ghost var at := r.pos;
    var header := ReadHeader(r);
    fs := TakeOne(fs, r.data, at);
    if header.None? { return None; }
    at := r.pos;
    var childFrameId := r.String();
    fs := TakeOne(fs, r.data, at);
    if childFrameId.None? { return None; }
    at := r.pos;
    var transform := ReadPose(r);
    fs := TakeOne(fs, r.data, at);
    if transform.None? { return None; }
    TakeEnd(r.data, r.pos);
    m := Some(TransformStamped(header.value, childFrameId.value, transform.value));
  }

  method ReadImage(r: PyReader) returns (m: Option<Image>)
    requires r.Valid()
    modifies r
    ensures m.None? <==> !DecFields(IMAGE, r.data, old(r.pos)).Ok?
    ensures m.Some? ==> r.Valid() && DecFields(IMAGE, r.data, old(r.pos)) == Ok(ImageValue(m.value), r.pos)
  {
    hide DecFields, DecMember, DecPrim, DecText, DoubleValues, ByteValues;
    ghost var fs := IMAGE;
    ghost var at := r.pos;
    var header := ReadHeader(r);
    fs := TakeOne(fs, r.data, at);
    if header.None? { return None; }
    at := r.pos;
    var height := r.UInt32();
    fs := TakeOne(fs, r.data, at);
    if height.None? { return None; }
    at := r.pos;
    var width := r.UInt32();
    fs := TakeOne(fs, r.data, at);
    if width.None? { return None; }
    at := r.pos;
    var encoding := r.String();
    fs := TakeOne(fs, r.data, at);
    if encoding.None? { return None; }
    at := r.pos;
    var isBigendian := r.Byte();
    fs := TakeOne(fs, r.data, at);
    if isBigendian.None? { return None; }
    at := r.pos;
    var step := r.UInt32();
    fs := TakeOne(fs, r.data, at);
    if step.None? { return None; }
    at := r.pos;
    var data := r.ByteSequence();
    fs := TakeMember(fs, r.data, at);
    if data.None? { return None; }
    TakeEnd(r.data, r.pos);
    m := Some(Image(header.value, height.value, width.value, encoding.value, isBigendian.value, step.value, data.value));
  }

  method ReadRegionOfInterest(r: PyReader) returns (m: Option<RegionOfInterest>)
    requires r.Valid()
    modifies r
    ensures m.None? <==> !DecFields(ROI, r.data, old(r.pos)).Ok?
    ensures m.Some? ==> r.Valid() && DecFields(ROI, r.data, old(r.pos)) == Ok(RoiValue(m.value), r.pos)
  {
    hide DecFields, DecPrim, DecText;
    ghost var fs := ROI;
    ghost var at := r.pos;
    var xOffset := r.UInt32();
    fs := TakeOne(fs, r.data, at);
    if xOffset.None? { return None; }
    at := r.pos;
    var yOffset := r.UInt32();
    fs := TakeOne(fs, r.data, at);
    if yOffset.None? { return None; }
    at := r.pos;
    var height := r.UInt32();
    fs := TakeOne(fs, r.data, at);
    if height.None? { return None; }
    at := r.pos;
    var width := r.UInt32();
    fs := TakeOne(fs, r.data, at);
    if width.None? { return None; }
    at := r.pos;
    var doRectify := r.Boolean();
    fs := TakeOne(fs, r.data, at);
    if doRectify.None? { return None; }
    TakeEnd(r.data, r.pos);
    m := Some(RegionOfInterest(xOffset.value, yOffset.value, height.value, width.value, doRectify.value));
  }

  method ReadBinning(r: PyReader) returns (x: Option<uint32>, y: Option<uint32>, roi: Option<RegionOfInterest>)
    requires r.Valid()
    modifies r
    ensures roi.None? <==> !DecFields(BINNING, r.data, old(r.pos)).Ok?
    ensures roi.Some? ==> x.Some? && y.Some? && r.Valid()
    ensures roi.Some? ==>
      var value := Member([Bits(x.value)], Member([Bits(y.value)], Member([Struct(RoiValue(roi.value))], Stop)));
      DecFields(BINNING, r.data, old(r.pos)) == Ok(value, r.pos)
  {
    hide DecFields, DecPrim;
    y, roi := None, None;
    ghost var fs := BINNING;
    ghost var at := r.pos;
    x := r.UInt32();
    fs := TakeOne(fs, r.data, at);
    if x.None? { return; }
    at := r.pos;
    y := r.UInt32();
    fs := TakeOne(fs, r.data, at);
    if y.None? { return; }
    at := r.pos;
    roi := ReadRegionOfInterest(r);
    fs := TakeOne(fs, r.data, at);
    if roi.None? { return; }
    TakeEnd(r.data, r.pos);
  }

  /** `d`, `k`, `r`, `p`; the four results are None together. */
  method ReadMatrices(r: PyReader) returns (m: Option<(seq<float64>, seq<float64>, seq<float64>, seq<float64>)>)
    requires r.Valid()
    modifies r
    ensures m.Some? ==> r.Valid() && |m.value.1| == 9 && |m.value.2| == 9 && |m.value.3| == 12
    ensures m.None? ==> !DecFields(MATRICES, r.data, old(r.pos)).Ok?
    ensures m.Some? ==>
      var full, tail := DecFields(MATRICES, r.data, old(r.pos)), DecFields(BINNING, r.data, r.pos);
      (full.Ok? <==> tail.Ok?) &&
      (tail.Ok? ==> full == Ok(Member(DoubleValues(m.value.0), Member(DoubleValues(m.value.1),
        Member(DoubleValues(m.value.2), Member(DoubleValues(m.value.3), tail.value)))), tail.pos))
  {
    hide DecFields, DecMember, DoubleValues, Pad;
    ghost var fs := MATRICES;
    ghost var at := r.pos;
    var d := r.DoubleSequence();
    fs := TakeList(fs, r.data, at);
    if d.None? { return None; }
    at := r.pos;
    var k := r.Doubles(9);
    fs := TakeMember(fs, r.data, at);
    if k.None? { return None; }
    at := r.pos;
    var rr := r.Doubles(9);
    fs := TakeMember(fs, r.data, at);
    if rr.None? { return None; }
    at := r.pos;
    var p := r.Doubles(12);
    fs := TakeMember(fs, r.data, at);
    if p.None? { return None; }
    m := Some((d.value, k.value, rr.value, p.value));
  }

  method ReadCameraInfo(r: PyReader) returns (m: Option<CameraInfo>)
    requires r.Valid()
    modifies r
    ensures m.None? <==> !DecFields(CAMERA_INFO, r.data, old(r.pos)).Ok?
    ensures m.Some? ==> r.Valid() && DecFields(CAMERA_INFO, r.data, old(r.pos)) == Ok(CameraInfoValue(m.value), r.pos)
    ensures m.Some? ==> HasFixedLengths(m.value)
  {
    hide DecFields, DecPrim, DecText, DoubleValues;
    ghost var fs := CAMERA_INFO;
    ghost var at := r.pos;
    var header := ReadHeader(r);
    fs := TakeOne(fs, r.data, at);
    if header.None? { return None; }
    at := r.pos;
    var height := r.UInt32();
    fs := TakeOne(fs, r.data, at);
    if height.None? { return None; }
    at := r.pos;
    var width := r.UInt32();
    fs := TakeOne(fs, r.data, at);
    if width.None? { return None; }
    at := r.pos;
    var model := r.String();
    fs := TakeOne(fs, r.data, at);
    if model.None? { return None; }
    var lists := ReadMatrices(r);
    if lists.None? { return None; }
    var x, y, roi := ReadBinning(r);
    if roi.None? { return None; }
    var (d, k, rr, p) := lists.value;
    m := Some(CameraInfo(header.value, height.value, width.value, model.value, d, k, rr, p, x.value, y.value, roi.value));
  }

  // --- consequences -----------------------------------------------------------------

  lemma {:induction false} ElemsAppend(e: Elem, vs: seq<Value>, ws: seq<Value>, off: nat)
    ensures EncElems(e, vs + ws, off) == EncElems(e, vs, off) + EncElems(e, ws, off + |EncElems(e, vs, off)|)
    decreases |vs|
  {
    hide EncElem;
    if vs == [] {
      assert vs + ws == ws;
    } else {
      var head := EncElem(e, vs[0], off);
      assert (vs + ws)[1..] == vs[1..] + ws;
      ElemsAppend(e, vs[1..], ws, off + |head|);
      var mid := EncElems(e, vs[1..], off + |head|);
      ConcatAssociates(head, mid, EncElems(e, ws, off + |head| + |mid|));
    }
  }

  /** Two lists of doubles written one after the other are indistinguishable from any other split of the same doubles.
      */
  lemma ListsRunTogether(a: seq<float64>, b: seq<float64>, off: nat)
    ensures var head := EncElems(F64, DoubleValues(a), off);
            head + EncElems(F64, DoubleValues(b), off + |head|) == EncElems(F64, DoubleValues(a + b), off)
  {
    ElemsAppend(F64, DoubleValues(a), DoubleValues(b), off);
    assert DoubleValues(a) + DoubleValues(b) == DoubleValues(a + b);
  }

  /** None of the shipped schemas is affected by the length guard. */
  lemma ShippedSchemasSolid()
    ensures Solid(EMPTY) && Solid(STRING) && Solid(POSE_STAMPED) && Solid(TRANSFORM_STAMPED)
    ensures Solid(IMAGE) && Solid(CAMERA_INFO)
  {
    assert Solid(ROI) && Solid(HEADER) && Solid(POSE);
    assert Solid(BINNING);
    assert Solid(Field(Array(9), F64, Field(Array(12), F64, BINNING)));
    assert Solid(MATRICES);
    assert Solid(Field(Scalar, U32, Field(Scalar, Text, MATRICES)));
    assert Solid(Field(Scalar, Primitive(UInt8), Field(Scalar, U32, Field(Sequence, Primitive(UInt8), End))));
    assert Solid(Field(Scalar, U32, Field(Scalar, Text,
      Field(Scalar, Primitive(UInt8), Field(Scalar, U32, Field(Sequence, Primitive(UInt8), End))))));
  }

  lemma CameraInfoTyped(m: CameraInfo)
    requires Fits(m.header.frameId) && Fits(m.distortionModel)
    requires |m.d| < U32_LIMIT && |m.k| == 9 && |m.r| == 9 && |m.p| == 12
    ensures WellFormed(CAMERA_INFO, CameraInfoValue(m))
  {
    hide Pow256;
    Pow256Values();
    HeaderTyped(m.header);
    MatricesTyped(m);
  }

  lemma HeaderTyped(h: Header)
    requires Fits(h.frameId)
    ensures WellFormed(HEADER, HeaderValue(h))
  {
    hide Pow256;
    Pow256Values();
    assert WellFormed(TIME, TimeValue(h.stamp));
  }

  lemma MatricesTyped(m: CameraInfo)
    requires |m.d| < U32_LIMIT && |m.k| == 9 && |m.r| == 9 && |m.p| == 12
    ensures WellFormed(MATRICES, MatricesValue(m))
  {
    hide DoubleValues, Pow256;
    BinningTyped(m);
    assert FitsAll(F64, DoubleValues(m.d)) && FitsAll(F64, DoubleValues(m.k));
    assert FitsAll(F64, DoubleValues(m.r)) && FitsAll(F64, DoubleValues(m.p));
  }

  lemma BinningTyped(m: CameraInfo)
    ensures WellFormed(BINNING, BinningValue(m))
  {
    hide Pow256;
    Pow256Values();
    assert WellFormed(ROI, RoiValue(m.roi));
  }
}
