// The reference decoder over a whole buffer, encapsulation header included.
module Decoding {
  import opened Bytes
  import opened Schema

  datatype CdrError =
    | BufferTooSmall
    | UnsupportedEncapsulation
    | AlignmentPastEnd
    | ReadPastEnd
    | InvalidStringLength

  /** `deserialize` either returns true, returns false, or throws. */
  datatype Decoded<+T> = Ok(value: T, pos: nat) | Rejected | Thrown(error: CdrError) {
    predicate IsFailure() {
      !Ok?
    }

    function PropagateFailure<U>(): Decoded<U>
      requires !Ok?
    {
      if Rejected? then Rejected else Thrown(error)
    }

    function Extract(): (T, nat)
      requires Ok?
    {
      (value, pos)
    }
  }

  function DecAlign(n: nat, bs: seq<byte>, pos: nat): (r: Decoded<()>)
    requires 4 <= pos <= |bs| && IsAlignment(n)
    ensures r.Ok? ==> pos <= r.pos <= |bs|
  {
    var q := pos + Pad(pos - 4, n);
    if q > |bs| then Thrown(AlignmentPastEnd) else Ok((), q)
  }

  function DecTake(size: nat, bs: seq<byte>, pos: nat): (r: Decoded<seq<byte>>)
    requires 4 <= pos <= |bs|
    ensures r.Ok? ==> pos <= r.pos <= |bs|
  {
    if pos + size > |bs| then Thrown(ReadPastEnd) else Ok(bs[pos..pos + size], pos + size)
  }

  /** A bool read from any non-zero octet is true; every other bit pattern is kept. */
  function FromRaw(p: Prim, raw: seq<byte>): Value {
    var bits := FromLittleEndian(raw);
    Bits(if p == Bool && bits > 0 then 1 else bits)
  }

  function DecPrim(p: Prim, bs: seq<byte>, pos: nat): (r: Decoded<Value>)
    requires 4 <= pos <= |bs|
    ensures r.Ok? ==> pos <= r.pos <= |bs|
  {
    var (_, q) :- DecAlign(SizeOf(p), bs, pos);
    var (raw, q') :- DecTake(SizeOf(p), bs, q);
    Ok(FromRaw(p, raw), q')
  }

  function DecCount(bs: seq<byte>, pos: nat): (r: Decoded<nat>)
    requires 4 <= pos <= |bs|
    ensures r.Ok? ==> pos <= r.pos <= |bs|
  {
    var (v, q) :- DecPrim(UInt32, bs, pos);
    Ok(v.bits, q)
  }

  /** The terminating octet is consumed but not inspected. */
  function DecText(bs: seq<byte>, pos: nat): (r: Decoded<seq<byte>>)
    requires 4 <= pos <= |bs|
    ensures r.Ok? ==> pos <= r.pos <= |bs|
  {
    var (len, q) :- DecCount(bs, pos);
    if len == 0 || q + len > |bs| then Thrown(InvalidStringLength)
    else Ok(bs[q..q + len - 1], q + len)
  }

  function DecElem(e: Elem, bs: seq<byte>, pos: nat): (r: Decoded<Value>)
    requires 4 <= pos <= |bs|
    ensures r.Ok? ==> pos <= r.pos <= |bs|
    decreases e, 0, 0
  {
    match e
    case Primitive(p) => DecPrim(p, bs, pos)
    case Text =>
      var (s, q) :- DecText(bs, pos);
      Ok(Chars(s), q)
    case Nested(fs) =>
      var (ms, q) :- DecFields(fs, bs, pos);
      Ok(Struct(ms), q)
  }

  function DecElems(e: Elem, n: nat, bs: seq<byte>, pos: nat): (r: Decoded<seq<Value>>)
    requires 4 <= pos <= |bs|
    ensures r.Ok? ==> pos <= r.pos <= |bs|
    decreases e, 1, n
  {
    if n == 0 then Ok([], pos)
    else
      var (v, q) :- DecElem(e, bs, pos);
      var (vs, q') :- DecElems(e, n - 1, bs, q);
      Ok([v] + vs, q')
  }

  /** What precedes the elements; yields how many follow. A length beyond the remaining octets is rejected. */
  function DecHead(k: Kind, e: Elem, bs: seq<byte>, pos: nat): (r: Decoded<nat>)
    requires 4 <= pos <= |bs|
    ensures r.Ok? ==> pos <= r.pos <= |bs|
  {
    match k
    case Scalar => Ok(1, pos)
    case Sequence =>
      var (n, q) :- DecCount(bs, pos);
      if n > |bs| - q then Rejected else Ok(n, q)
    case Array(len) =>
      if e.Primitive? then
        var (_, q) :- DecAlign(WireAlignment(e.prim), bs, pos);
        Ok(len, q)
      else Ok(len, pos)
  }

  function DecMember(k: Kind, e: Elem, bs: seq<byte>, pos: nat): (r: Decoded<seq<Value>>)
    requires 4 <= pos <= |bs|
    ensures r.Ok? ==> pos <= r.pos <= |bs|
    decreases e, 2
  {
    var (n, q) :- DecHead(k, e, bs, pos);
    DecElems(e, n, bs, q)
  }

  function DecFields(fs: Fields, bs: seq<byte>, pos: nat): (r: Decoded<Members>)
    requires 4 <= pos <= |bs|
    ensures r.Ok? ==> pos <= r.pos <= |bs|
    decreases fs, 0
  {
    match fs
    case End => Ok(Stop, pos)
    case Field(k, e, rest) =>
      var (items, q) :- DecMember(k, e, bs, pos);
      var (tail, q') :- DecFields(rest, bs, q);
      Ok(Member(items, tail), q')
  }

  // --- what is read, octet by octet ------------------------------------------------

  lemma RawOctets(p: Prim, raw: seq<byte>)
    requires |raw| == SizeOf(p)
    ensures FromRaw(p, raw).Bits?
    ensures var bits := FromRaw(p, raw).bits;
            if p == Bool then bits == if raw[0] == 0 then 0 else 1
            else bits < Pow256(|raw|) && forall i :: 0 <= i < |raw| ==> (bits / Pow256(i)) % 256 == raw[i]
  {
    hide FromLittleEndian;
    if p == Bool {
      assert raw == [raw[0]];
      OneOctet(raw[0]);
    } else {
      forall i | 0 <= i < |raw| ensures (FromLittleEndian(raw) / Pow256(i)) % 256 == raw[i] {
        FromLittleEndianAt(raw, i);
      }
    }
  }

  /** A primitive: what fails and how, and which octets of the buffer the bits are. */
  lemma PrimReadOctets(p: Prim, bs: seq<byte>, pos: nat)
    requires 4 <= pos <= |bs|
    ensures var r, size := DecPrim(p, bs, pos), SizeOf(p);
            var q := pos + Pad(pos - 4, size);
            if q > |bs| then r == Thrown(AlignmentPastEnd)
            else if q + size > |bs| then r == Thrown(ReadPastEnd)
            else
              && r.Ok? && r.pos == q + size && r.value.Bits?
              && if p == Bool then r.value.bits == if bs[q] == 0 then 0 else 1
                 else r.value.bits < Pow256(size) &&
                      forall i :: 0 <= i < size ==> (r.value.bits / Pow256(i)) % 256 == bs[q + i]
  {
    hide Pad, FromRaw, SizeOf, DecPrim;
    var size := SizeOf(p);
    var q := pos + Pad(pos - 4, size);
    PrimReadSteps(p, bs, pos);
    if q + size <= |bs| {
      RawOctets(p, bs[q..q + size]);
    }
  }

  lemma PrimReadSteps(p: Prim, bs: seq<byte>, pos: nat)
    requires 4 <= pos <= |bs|
    ensures var size := SizeOf(p);
            var q := pos + Pad(pos - 4, size);
            DecPrim(p, bs, pos) == if q > |bs| then Thrown(AlignmentPastEnd)
                                   else if q + size > |bs| then Thrown(ReadPastEnd)
                                   else Ok(FromRaw(p, bs[q..q + size]), q + size)
  {
    hide Pad, FromRaw, SizeOf;
  }

  lemma CountReadOctets(bs: seq<byte>, pos: nat)
    requires 4 <= pos <= |bs|
    ensures var q := pos + Pad(pos - 4, 4);
            DecCount(bs, pos) == if q > |bs| then Thrown(AlignmentPastEnd)
                                 else if q + 4 > |bs| then Thrown(ReadPastEnd)
                                 else Ok(CountAt(bs, q), q + 4)
  {
    hide Pad, FromLittleEndian;
    var q := pos + Pad(pos - 4, 4);
    if q + 4 <= |bs| {
      var raw := bs[q..q + 4];
      FourOctets(raw);
      assert CountAt(raw, 0) == CountAt(bs, q);
    }
  }

  /** A string is accepted iff its count is not zero and does not pass the end; the NUL is dropped unseen. */
  lemma TextReadOctets(bs: seq<byte>, pos: nat)
    requires 4 <= pos <= |bs|
    ensures var q := pos + Pad(pos - 4, 4);
            DecText(bs, pos) == if q > |bs| then Thrown(AlignmentPastEnd)
                                else if q + 4 > |bs| then Thrown(ReadPastEnd)
                                else if CountAt(bs, q) == 0 || q + 4 + CountAt(bs, q) > |bs| then Thrown(InvalidStringLength)
                                else Ok(bs[q + 4..q + 3 + CountAt(bs, q)], q + 4 + CountAt(bs, q))
  {
    hide Pad, DecPrim, CountAt, DecCount;
    CountReadOctets(bs, pos);
  }

  /** A sequence is rejected, not thrown at, iff its count exceeds the octets that remain. */
  lemma SequenceReadOctets(e: Elem, bs: seq<byte>, pos: nat)
    requires 4 <= pos <= |bs|
    ensures var q := pos + Pad(pos - 4, 4);
            DecMember(Sequence, e, bs, pos) == if q > |bs| then Thrown(AlignmentPastEnd)
                                               else if q + 4 > |bs| then Thrown(ReadPastEnd)
                                               else if CountAt(bs, q) > |bs| - (q + 4) then Rejected
                                               else DecElems(e, CountAt(bs, q), bs, q + 4)
  {
    hide Pad, DecPrim, CountAt, DecCount, DecElems;
    CountReadOctets(bs, pos);
  }

  /** A scalar member is read as its one element. */
  lemma ScalarRead(e: Elem, data: seq<byte>, pos: nat)
    requires 4 <= pos <= |data|
    ensures var d := DecElem(e, data, pos);
            if d.Ok? then DecMember(Scalar, e, data, pos) == Ok([d.value], d.pos) else !DecMember(Scalar, e, data, pos).Ok?
  {
    hide DecElem;
    var r := DecElem(e, data, pos);
    assert DecMember(Scalar, e, data, pos) == DecElems(e, 1, data, pos);
    if r.Ok? {
      assert DecElems(e, 0, data, r.pos) == Ok([], r.pos);
      assert [r.value] + [] == [r.value];
    }
  }
}
