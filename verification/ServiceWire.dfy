// What services put on the wire: [encapsulation][8 octets client id][8 octets sequence][message].
module ServiceWire {
  import opened Bytes
  import opened Schema
  import opened Encoding
  import opened Decoding
  import opened RoundTrip
  import opened Acceptance
  import opened Cdr
  import opened Wrappers
  import opened Blobs
  import opened Generated

  const I64_LIMIT: int := 0x8000_0000_0000_0000

  type uint64 = v: int | 0 <= v < U64_LIMIT
  type int64 = v: int | -I64_LIMIT <= v < I64_LIMIT

  datatype ServiceHeader = ServiceHeader(clientId: uint64, sequence: int64)

  /** Two's complement: a negative number is 2^64 below its bit pattern, any other is its own. */
  function PackInt64(v: int64): (bits: nat)
    ensures bits < U64_LIMIT
    ensures bits == v || bits == v + 0x1_0000_0000_0000_0000
  {
    if v < 0 then v + U64_LIMIT else v
  }

  function UnpackInt64(bits: nat): (v: int64)
    requires bits < U64_LIMIT
    ensures PackInt64(v) == bits
  {
    if bits < I64_LIMIT then bits else bits - U64_LIMIT
  }

  /** The header fields run on into the fields of the message: one alignment context. */
  function Enveloped(fs: Fields): Fields {
    Field(Scalar, Primitive(UInt64), Field(Scalar, Primitive(Int64), fs))
  }

  function Envelope(h: ServiceHeader, ms: Members): Members {
    Member([Bits(h.clientId)], Member([Bits(PackInt64(h.sequence))], ms))
  }

  /** The octets of a request or reply. */
  function Wire(fs: Fields, h: ServiceHeader, ms: Members): seq<byte> {
    HEADER + EncFields(Enveloped(fs), Envelope(h, ms), 0)
  }

  /** What a receiver makes of a payload; None if the reader throws or deserialize returns false. */
  function Parse(fs: Fields, payload: seq<byte>): (r: Option<(ServiceHeader, Members)>) {
    if OpenError(payload) != None then None
    else
      match DecFields(Enveloped(fs), payload, 4)
      case Ok(ms, _) =>
        EnvelopeOfDecoded(fs, payload);
        Some((ServiceHeader(ms.items[0].bits, UnpackInt64(ms.rest.items[0].bits)), ms.rest.rest))
      case _ => None
  }

  lemma EnvelopeOfDecoded(fs: Fields, payload: seq<byte>)
    requires |payload| >= 4 && DecFields(Enveloped(fs), payload, 4).Ok?
    ensures var ms := DecFields(Enveloped(fs), payload, 4).value;
            && ms.Member? && |ms.items| == 1 && ms.items[0].Bits? && ms.items[0].bits < U64_LIMIT
            && ms.rest.Member? && |ms.rest.items| == 1 && ms.rest.items[0].Bits? && ms.rest.items[0].bits < U64_LIMIT
            && WellFormed(fs, ms.rest.rest)
  {
    hide DecFields, EncFields, AdmittedFields;
    FieldsAccepted(Enveloped(fs), payload, 4);
    Pow256Values();
    var ms := DecFields(Enveloped(fs), payload, 4).value;
    assert TypedElem(Primitive(UInt64), ms.items[0]);
    assert WellFormed(Enveloped(fs).rest, ms.rest);
    assert |ms.rest.items| == 1 && TypedAll(Primitive(Int64), ms.rest.items);
    assert TypedElem(Primitive(Int64), ms.rest.items[0]);
  }

  lemma EnvelopeWellFormed(fs: Fields, h: ServiceHeader, ms: Members)
    requires WellFormed(fs, ms)
    ensures WellFormed(Enveloped(fs), Envelope(h, ms))
  {
    hide Pow256;
    Pow256Values();
    assert SizeOf(UInt64) == 8 && SizeOf(Int64) == 8;
    var id, number := Bits(h.clientId), Bits(PackInt64(h.sequence));
    assert TypedElem(Primitive(UInt64), id) && TypedElem(Primitive(Int64), number);
    assert TypedAll(Primitive(UInt64), [id]) && FitsAll(Primitive(UInt64), [id]);
    assert TypedAll(Primitive(Int64), [number]) && FitsAll(Primitive(Int64), [number]);
    assert WellFormed(Field(Scalar, Primitive(Int64), fs), Member([number], ms));
  }

  /** A payload, with the transport's padding, parses to what was sent - unless the length guard rejects it. */
  lemma ParseOfWire(fs: Fields, h: ServiceHeader, ms: Members)
    requires WellFormed(fs, ms)
    ensures var received := Padded(Wire(fs, h, ms));
            Parse(fs, received) ==
            if AdmittedFields(Enveloped(fs), Envelope(h, ms), 0, |received| - 4) then Some((h, ms)) else None
  {
    hide DecFields, EncFields, AdmittedFields, TypedFields, FitsFields;
    EnvelopeWellFormed(fs, h, ms);
    var received := Padded(Wire(fs, h, ms));
    var enc := EncFields(Enveloped(fs), Envelope(h, ms), 0);
    assert received[4..4 + |enc|] == enc;
    assert received[..2] == HEADER[..2];
    FieldsRoundTrip(Enveloped(fs), Envelope(h, ms), received, 4);
  }

  // --- the header helpers and the two directions of marshalling -----------------------

  function HeaderOctets(h: ServiceHeader, off: nat): seq<byte> {
    var id := EncPrim(UInt64, h.clientId, off);
    id + EncPrim(Int64, PackInt64(h.sequence), off + |id|)
  }

  lemma EnvelopeEncoding(fs: Fields, h: ServiceHeader, ms: Members, off: nat)
    ensures var head := HeaderOctets(h, off);
            EncFields(Enveloped(fs), Envelope(h, ms), off) == head + EncFields(fs, ms, off + |head|)
  {
    hide EncPrim, EncMember, EncFields;
    var id := EncPrim(UInt64, h.clientId, off);
    var number := EncPrim(Int64, PackInt64(h.sequence), off + |id|);
    var tail := EncFields(fs, ms, off + |id| + |number|);
    ScalarMember(Primitive(UInt64), [Bits(h.clientId)], off);
    ScalarMember(Primitive(Int64), [Bits(PackInt64(h.sequence))], off + |id|);
    FieldUnfolds(Enveloped(fs).rest, Envelope(h, ms).rest, off + |id|, number, tail);
    FieldUnfolds(Enveloped(fs), Envelope(h, ms), off, id, number + tail);
    ConcatAssociates(id, number, tail);
  }

  /** The payload octet by octet: encapsulation, client id and sequence number, both least significant octet first, and
      the message from octet 20 on. */
  lemma WireOctets(fs: Fields, h: ServiceHeader, ms: Members, i: nat)
    requires i < 8
    ensures var w := Wire(fs, h, ms);
            var number := if h.sequence < 0 then 0x1_0000_0000_0000_0000 + h.sequence else h.sequence;
            && |w| >= 20 && w[0] == 0 && w[1] == 1 && w[2] == 0 && w[3] == 0
            && w[4 + i] == (h.clientId / Pow256(i)) % 256
            && w[12 + i] == (number / Pow256(i)) % 256
            && w[20..] == EncFields(fs, ms, 16)
  {
    hide EncFields, LittleEndian, HeaderOctets;
    var w := Wire(fs, h, ms);
    var id, number := LittleEndian(h.clientId, 8), LittleEndian(PackInt64(h.sequence), 8);
    HeaderAtStart(h);
    EnvelopeEncoding(fs, h, ms, 0);
    assert w == HEADER + (id + number) + EncFields(fs, ms, 16);
    LittleEndianAt(h.clientId, 8, i);
    LittleEndianAt(PackInt64(h.sequence), 8, i);
    assert w[4 + i] == id[i] && w[12 + i] == number[i];
  }

  lemma HeaderAtStart(h: ServiceHeader)
    ensures HeaderOctets(h, 0) == LittleEndian(h.clientId, 8) + LittleEndian(PackInt64(h.sequence), 8)
  {
    hide LittleEndian;
    AlignedPrim(UInt64, h.clientId, 0);
    AlignedPrim(Int64, PackInt64(h.sequence), 8);
  }

  method WriteServiceHeader(w: CdrWriter, h: ServiceHeader)
    requires w.Valid()
    modifies w
    ensures w.Valid() && w.buf == old(w.buf) + HeaderOctets(h, old(w.PayloadOffset()))
  {
    hide EncPrim;
    ghost var before := w.buf;
    w.WritePrim(UInt64, h.clientId);
    ghost var id := EncPrim(UInt64, h.clientId, |before| - 4);
    w.WritePrim(Int64, PackInt64(h.sequence));
    ConcatAssociates(before, id, EncPrim(Int64, PackInt64(h.sequence), |before| - 4 + |id|));
  }

  /** None where the reader throws. */
  method ReadServiceHeader(r: CdrReader) returns (h: Option<ServiceHeader>)
    requires r.Valid()
    modifies r
    ensures r.Valid()
    ensures HeaderAt(r.buf, old(r.pos)) == if h.Some? then Some((h.value, r.pos)) else None
  {
    hide Pad, FromLittleEndian;
    Pow256Values();
    var id := r.ReadPrim(UInt64);
    if !id.Ok? { return None; }
    var number := r.ReadPrim(Int64);
    if !number.Ok? { return None; }
    h := Some(ServiceHeader(id.value.bits, UnpackInt64(number.value.bits)));
  }

  /** The header at a position and the position behind it. */
  function HeaderAt(bs: seq<byte>, pos: nat): (r: Option<(ServiceHeader, nat)>)
    requires 4 <= pos <= |bs|
    ensures r.Some? ==> pos <= r.value.1 <= |bs|
  {
    Pow256Values();
    var id := DecPrim(UInt64, bs, pos);
    if !id.Ok? then None
    else
      var number := DecPrim(Int64, bs, id.pos);
      if !number.Ok? then None
      else Some((ServiceHeader(id.value.bits, UnpackInt64(number.value.bits)), number.pos))
  }

  /** Reading the header and then the message is what Parse describes. */
  lemma ParseInSteps(fs: Fields, payload: seq<byte>)
    requires OpenError(payload) == None
    ensures var header := HeaderAt(payload, 4);
            Parse(fs, payload) ==
            if header.None? || !DecFields(fs, payload, header.value.1).Ok? then None
            else Some((header.value.0, DecFields(fs, payload, header.value.1).value))
  {
    hide DecPrim, DecMember, OpenError;
    Pow256Values();
    ScalarRead(Primitive(UInt64), payload, 4);
    var id := DecPrim(UInt64, payload, 4);
    if id.Ok? {
      ScalarRead(Primitive(Int64), payload, id.pos);
      var number := DecPrim(Int64, payload, id.pos);
      var tail := DecFields(Enveloped(fs).rest, payload, id.pos);
      if number.Ok? {
        var rest := DecFields(fs, payload, number.pos);
        assert tail.Ok? <==> rest.Ok?;
        assert rest.Ok? ==> tail.value == Member([number.value], rest.value);
      } else {
        assert !tail.Ok?;
      }
    }
  }

  method Marshal(fs: Fields, h: ServiceHeader, ms: Members) returns (payload: seq<byte>)
    requires TypedFields(fs, ms)
    ensures payload == Wire(fs, h, ms)
  {
    hide EncFields, TypedFields, HeaderOctets;
    var w := new CdrWriter();
    WriteServiceHeader(w, h);
    Serialize(fs, ms, w);
    payload := w.buf;
    EnvelopeEncoding(fs, h, ms, 0);
    ConcatAssociates(HEADER, HeaderOctets(h, 0), EncFields(fs, ms, |HeaderOctets(h, 0)|));
  }
}
