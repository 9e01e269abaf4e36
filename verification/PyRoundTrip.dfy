// Each shipped message type, written by Python: the octets are those of the generated C++ code, the generated C++ code
// reads them back, and so does Python.
module PyRoundTrip {
  import opened Bytes
  import opened Schema
  import opened Encoding
  import opened Decoding
  import opened PyCodec
  import opened LengthGuard
  import opened Wrappers
  import opened PyMessages
  import Cdr

  /** The octets are what C++ writes for the value, and what C++ reads as the value. */
  ghost predicate IsWireOf(payload: seq<byte>, fs: Fields, ms: Members) {
    && payload == Cdr.HEADER + EncFields(fs, ms, 0)
    && DecFields(fs, payload, 4) == Ok(ms, |payload|)
  }

  lemma WireOpens(payload: seq<byte>, fs: Fields, ms: Members)
    requires payload == Cdr.HEADER + EncFields(fs, ms, 0) && Solid(fs) && WellFormed(fs, ms)
    ensures Cdr.OpenError(payload) == None && IsWireOf(payload, fs, ms)
  {
    hide EncFields, DecFields, Solid, WellFormed;
    SentIsDecoded(Cdr.HEADER, fs, ms);
  }

  // --- the values determine the messages ---------------------------------------------------

  lemma DoublesInjective(a: seq<float64>, b: seq<float64>)
    requires DoubleValues(a) == DoubleValues(b)
    ensures a == b
  {
    forall i | 0 <= i < |a| ensures |a| == |b| && a[i] == b[i] {
      assert DoubleValues(a)[i] == Bits(a[i]) && |DoubleValues(a)| == |DoubleValues(b)|;
      assert DoubleValues(b)[i] == Bits(b[i]);
    }
    assert |DoubleValues(a)| == |DoubleValues(b)|;
  }

  lemma BytesInjective(a: seq<byte>, b: seq<byte>)
    requires ByteValues(a) == ByteValues(b)
    ensures a == b
  {
    BytesAreMemory(a);
    BytesAreMemory(b);
  }

  lemma HeaderInjective(a: Header, b: Header)
    requires HeaderValue(a) == HeaderValue(b)
    ensures a == b
  {
    assert HeaderValue(a).items[0] == HeaderValue(b).items[0];
    assert HeaderValue(a).rest.items[0] == HeaderValue(b).rest.items[0];
    TimeInjective(a.stamp, b.stamp);
  }

  lemma TimeInjective(a: Time, b: Time)
    requires TimeValue(a) == TimeValue(b)
    ensures a == b
  {
    assert TimeValue(a).items[0] == TimeValue(b).items[0];
    assert TimeValue(a).rest.items[0] == TimeValue(b).rest.items[0];
  }

  lemma PoseInjective(a: Pose, b: Pose)
    requires PoseValue(a) == PoseValue(b)
    ensures a == b
  {
    assert PoseValue(a).items[0] == PoseValue(b).items[0];
    assert PoseValue(a).rest.items[0] == PoseValue(b).rest.items[0];
    TripleInjective(a.position, b.position);
    QuaternionInjective(a.orientation, b.orientation);
  }

  lemma TripleInjective(a: Triple, b: Triple)
    requires TripleValue(a) == TripleValue(b)
    ensures a == b
  {
    var x, y := TripleValue(a), TripleValue(b);
    assert x.items[0] == y.items[0] && x.rest.items[0] == y.rest.items[0] && x.rest.rest.items[0] == y.rest.rest.items[0];
  }

  lemma QuaternionInjective(a: Quaternion, b: Quaternion)
    requires QuaternionValue(a) == QuaternionValue(b)
    ensures a == b
  {
    var x, y := QuaternionValue(a), QuaternionValue(b);
    assert x.items[0] == y.items[0] && x.rest.items[0] == y.rest.items[0];
    x, y := x.rest.rest, y.rest.rest;
    assert x.items[0] == y.items[0] && x.rest.items[0] == y.rest.items[0];
  }

  lemma RoiInjective(a: RegionOfInterest, b: RegionOfInterest)
    requires RoiValue(a) == RoiValue(b)
    ensures a == b
  {
    var x, y := RoiValue(a), RoiValue(b);
    assert x.items[0] == y.items[0] && x.rest.items[0] == y.rest.items[0];
    x, y := x.rest.rest, y.rest.rest;
    assert x.items[0] == y.items[0] && x.rest.items[0] == y.rest.items[0] && x.rest.rest.items[0] == y.rest.rest.items[0];
  }

  lemma ImageInjective(a: Image, b: Image)
    requires ImageValue(a) == ImageValue(b)
    ensures a == b
  {
    hide ByteValues;
    var x, y := ImageValue(a), ImageValue(b);
    assert x.items[0] == y.items[0] && x.rest.items[0] == y.rest.items[0];
    HeaderInjective(a.header, b.header);
    x, y := x.rest.rest, y.rest.rest;
    assert x.items[0] == y.items[0] && x.rest.items[0] == y.rest.items[0];
    x, y := x.rest.rest, y.rest.rest;
    assert x.items[0] == y.items[0] && x.rest.items[0] == y.rest.items[0];
    BytesInjective(a.data, b.data);
  }

  lemma BinningInjective(a: CameraInfo, b: CameraInfo)
    requires BinningValue(a) == BinningValue(b)
    ensures a.binningX == b.binningX && a.binningY == b.binningY && a.roi == b.roi
  {
    var x, y := BinningValue(a), BinningValue(b);
    assert x.items[0] == y.items[0] && x.rest.items[0] == y.rest.items[0] && x.rest.rest.items[0] == y.rest.rest.items[0];
    RoiInjective(a.roi, b.roi);
  }

  lemma CameraInfoInjective(a: CameraInfo, b: CameraInfo)
    requires CameraInfoValue(a) == CameraInfoValue(b)
    ensures a == b
  {
    hide DoubleValues, BinningValue;
    var x, y := CameraInfoValue(a), CameraInfoValue(b);
    assert x.items[0] == y.items[0] && x.rest.items[0] == y.rest.items[0];
    HeaderInjective(a.header, b.header);
    x, y := x.rest.rest, y.rest.rest;
    assert x.items[0] == y.items[0] && x.rest.items[0] == y.rest.items[0];
    DoublesInjective(a.d, b.d);
    DoublesInjective(a.k, b.k);
    DoublesInjective(a.r, b.r);
    DoublesInjective(a.p, b.p);
    BinningInjective(a, b);
  }

  // --- the values are typed --------------------------------------------------------------------

  lemma PoseTyped(p: Pose)
    ensures WellFormed(POSE, PoseValue(p))
  {
    hide Pow256;
    Pow256Values();
    assert WellFormed(POINT, TripleValue(p.position));
    assert WellFormed(QUATERNION, QuaternionValue(p.orientation));
  }

  lemma ImageTyped(m: Image)
    requires Fits(m.header.frameId) && Fits(m.encoding) && |m.data| < U32_LIMIT
    ensures WellFormed(IMAGE, ImageValue(m))
  {
    hide Pow256, ByteValues;
    Pow256Values();
    HeaderTyped(m.header);
    assert FitsAll(Primitive(UInt8), ByteValues(m.data));
  }

  // --- the round trips -----------------------------------------------------------------------------

  method EmptyThroughPython() returns (payload: seq<byte>)
    ensures IsWireOf(payload, EMPTY, Stop)
  {
    hide EncFields, DecFields, Solid;
    var w := new PyWriter();
    WriteEmpty(w);
    payload := w.buf;
    ShippedSchemasSolid();
    assert WellFormed(EMPTY, Stop);
    WireOpens(payload, EMPTY, Stop);
    var r := new PyReader(payload);
    ReadEmpty(r);
    assert r.pos == |payload|;
  }

  method StringThroughPython(data: seq<byte>) returns (payload: seq<byte>, back: Option<seq<byte>>)
    requires Fits(data)
    ensures IsWireOf(payload, STRING, StringValue(data)) && back == Some(data)
  {
    hide EncFields, DecFields, Solid;
    var w := new PyWriter();
    WriteStringMessage(w, data);
    payload := w.buf;
    ShippedSchemasSolid();
    WireOpens(payload, STRING, StringValue(data));
    var r := new PyReader(payload);
    back := ReadStringMessage(r);
    assert StringValue(back.value).items[0] == StringValue(data).items[0];
  }

  method PoseStampedThroughPython(m: PoseStamped) returns (payload: seq<byte>, back: Option<PoseStamped>)
    requires Fits(m.header.frameId)
    ensures IsWireOf(payload, POSE_STAMPED, PoseStampedValue(m)) && back == Some(m)
  {
    hide EncFields, DecFields, Solid, HeaderValue, PoseValue;
    var w := new PyWriter();
    WritePoseStamped(w, m);
    payload := w.buf;
    ShippedSchemasSolid();
    HeaderTyped(m.header);
    PoseTyped(m.pose);
    WireOpens(payload, POSE_STAMPED, PoseStampedValue(m));
    var r := new PyReader(payload);
    back := ReadPoseStamped(r);
    var x, y := PoseStampedValue(back.value), PoseStampedValue(m);
    assert x.items[0] == y.items[0] && x.rest.items[0] == y.rest.items[0];
    HeaderInjective(back.value.header, m.header);
    PoseInjective(back.value.pose, m.pose);
  }

  method TransformStampedThroughPython(m: TransformStamped) returns (payload: seq<byte>, back: Option<TransformStamped>)
    requires Fits(m.header.frameId) && Fits(m.childFrameId)
    ensures IsWireOf(payload, TRANSFORM_STAMPED, TransformStampedValue(m)) && back == Some(m)
  {
    hide EncFields, DecFields, Solid, HeaderValue, PoseValue;
    var w := new PyWriter();
    WriteTransformStamped(w, m);
    payload := w.buf;
    ShippedSchemasSolid();
    HeaderTyped(m.header);
    PoseTyped(m.transform);
    WireOpens(payload, TRANSFORM_STAMPED, TransformStampedValue(m));
    var r := new PyReader(payload);
    back := ReadTransformStamped(r);
    var x, y := TransformStampedValue(back.value), TransformStampedValue(m);
    assert x.items[0] == y.items[0] && x.rest.items[0] == y.rest.items[0] && x.rest.rest.items[0] == y.rest.rest.items[0];
    HeaderInjective(back.value.header, m.header);
    PoseInjective(back.value.transform, m.transform);
  }

  method ImageThroughPython(m: Image) returns (payload: seq<byte>, back: Option<Image>)
    requires Fits(m.header.frameId) && Fits(m.encoding) && |m.data| < U32_LIMIT
    ensures IsWireOf(payload, IMAGE, ImageValue(m)) && back == Some(m)
  {
    hide EncFields, DecFields, Solid, ImageValue, WellFormed;
    var w := new PyWriter();
    WriteImage(w, m);
    payload := w.buf;
    ShippedSchemasSolid();
    ImageTyped(m);
    WireOpens(payload, IMAGE, ImageValue(m));
    var r := new PyReader(payload);
    back := ReadImage(r);
    ImageInjective(back.value, m);
  }

  /** Python's own round trip returns the message iff k, r and p have the fixed lengths. Any other 30 doubles come back
      dealt out differently, and any other number of them never comes back as the same message. */
  method CameraInfoThroughPython(m: CameraInfo) returns (payload: seq<byte>, back: Option<CameraInfo>)
    requires Fits(m.header.frameId) && Fits(m.distortionModel) && |m.d| < U32_LIMIT
    ensures HasFixedLengths(m) ==> IsWireOf(payload, CAMERA_INFO, CameraInfoValue(m))
    ensures |m.k + m.r + m.p| == 30 ==> back == Some(Resplit(m))
    ensures back == Some(m) <==> HasFixedLengths(m)
  {
    hide EncFields, DecFields, Solid, CameraInfoValue, CameraInfoOctets, WellFormed;
    var w := new PyWriter();
    WriteCameraInfo(w, m);
    payload := w.buf;
    CameraOctetsOpen(m, payload);
    if |m.k + m.r + m.p| == 30 {
      ResplitIsEncoded(m, 0);
      ShippedSchemasSolid();
      CameraInfoTyped(Resplit(m));
      WireOpens(payload, CAMERA_INFO, CameraInfoValue(Resplit(m)));
    }
    var r := new PyReader(payload);
    back := ReadCameraInfo(r);
    if |m.k + m.r + m.p| == 30 {
      CameraInfoInjective(back.value, Resplit(m));
    }
  }

  lemma CameraOctetsOpen(m: CameraInfo, payload: seq<byte>)
    requires payload == Cdr.HEADER + CameraInfoOctets(m, 0)
    ensures Cdr.OpenError(payload) == None
  {
    hide CameraInfoOctets;
  }
}
