// CdrWriter and CdrReader: a growing buffer and a bounds-checked cursor.
module Cdr {
  import opened Bytes
  import opened Schema
  import opened Encoding
  import opened Decoding
  import opened Wrappers

  /** CDR_LE encapsulation, no options. */
  const HEADER: seq<byte> := [0, 1, 0, 0]

  class CdrWriter {
    var buf: seq<byte>

    predicate Valid()
      reads this
    {
      |buf| >= 4
    }

    constructor ()
      ensures Valid() && buf == HEADER && buf == [0, 1, 0, 0]
    {
      buf := HEADER;
    }

    /** Current offset, not counting the encapsulation header. */
    function PayloadOffset(): nat
      requires Valid()
      reads this
    {
      |buf| - 4
    }

    method AlignTo(n: nat)
      requires Valid() && IsAlignment(n)
      modifies this
      ensures Valid() && buf == old(buf) + Zeros(Pad(old(PayloadOffset()), n))
    {
      var pad := Pad(PayloadOffset(), n);
      for i := 0 to pad
        invariant buf == old(buf) + Zeros(i)
      {
        buf := buf + [0];
      }
    }

    method WriteBytes(data: seq<byte>)
      requires Valid()
      modifies this
      ensures Valid() && buf == old(buf) + data
    {
      buf := buf + data;
    }

    method WriteAligned(data: seq<byte>, alignment: nat)
      requires Valid() && IsAlignment(alignment)
      modifies this
      ensures Valid() && buf == old(buf) + (Zeros(Pad(old(PayloadOffset()), alignment)) + data)
    {
      AlignTo(alignment);
      WriteBytes(data);
    }

    /** `write_bool` to `write_float64`: the octets of the value in memory, aligned to their number. */
    method WritePrim(p: Prim, bits: nat)
      requires Valid()
      modifies this
      ensures Valid() && buf == old(buf) + EncPrim(p, bits, old(PayloadOffset()))
    {
      WriteAligned(LittleEndian(bits, SizeOf(p)), SizeOf(p));
    }

    method WriteString(s: seq<byte>)
      requires Valid()
      modifies this
      ensures Valid() && buf == old(buf) + EncText(s, old(PayloadOffset()))
      ensures |buf| >= |old(buf)| + 5 + |s| && buf[|buf| - 1] == 0 && buf[|buf| - 1 - |s|..|buf| - 1] == s
    {
      WritePrim(UInt32, (|s| + 1) % U32_LIMIT);
      WriteBytes(s + [0]);
    }
  }

  /** The exception the reader's constructor throws, if any. */
  function OpenError(data: seq<byte>): (r: Option<CdrError>)
    ensures r == None <==> |data| >= 4 && data[..2] == HEADER[..2]
    ensures r == None <==> |data| >= 4 && data[0] == 0 && data[1] == 1
    ensures r == Some(BufferTooSmall) <==> |data| < 4
    ensures r == Some(UnsupportedEncapsulation) <==> |data| >= 4 && !(data[0] == 0 && data[1] == 1)
  {
    if |data| < 4 then Some(BufferTooSmall)
    else
      var (hi: int, lo: int) := (data[0], data[1]);
      if 256 * hi + lo != 1 then Some(UnsupportedEncapsulation) else None
  }

  class CdrReader {
    const buf: seq<byte>
    var pos: nat

    predicate Valid()
      reads this
    {
      4 <= pos <= |buf|
    }

    constructor (data: seq<byte>)
      requires OpenError(data) == None
      ensures Valid() && buf == data && pos == 4
    {
      buf := data;
      pos := 4;
    }

    static method Open(data: seq<byte>) returns (error: Option<CdrError>, reader: CdrReader?)
      ensures error == OpenError(data)
      ensures error == None <==> reader != null
      ensures reader != null ==> fresh(reader) && reader.Valid() && reader.buf == data && reader.pos == 4
    {
      error, reader := OpenError(data), null;
      if error == None {
        reader := new CdrReader(data);
      }
    }

    function Remaining(): nat
      requires Valid()
      reads this
    {
      |buf| - pos
    }

    method AlignTo(n: nat) returns (r: Decoded<()>)
      requires Valid() && IsAlignment(n)
      modifies this
      ensures Valid() && r == DecAlign(n, buf, old(pos)) && pos == if r.Ok? then r.pos else old(pos)
    {
      var pad := Pad(pos - 4, n);
      if pos + pad > |buf| {
        return Thrown(AlignmentPastEnd);
      }
      pos := pos + pad;
      return Ok((), pos);
    }

    method ReadBytes(size: nat) returns (r: Decoded<seq<byte>>)
      requires Valid()
      modifies this
      ensures Valid() && r == DecTake(size, buf, old(pos)) && pos == if r.Ok? then r.pos else old(pos)
    {
      if pos + size > |buf| {
        return Thrown(ReadPastEnd);
      }
      var out := buf[pos..pos + size];
      pos := pos + size;
      return Ok(out, pos);
    }

    /** `read_aligned<T>`, the body of `read_bool` to `read_float64`. */
    method ReadPrim(p: Prim) returns (r: Decoded<Value>)
      requires Valid()
      modifies this
      ensures Valid() && r == DecPrim(p, buf, old(pos)) && (r.Ok? ==> pos == r.pos)
    {
      var _ :- AlignTo(SizeOf(p));
      var raw :- ReadBytes(SizeOf(p));
      return Ok(FromRaw(p, raw.0), pos);
    }

    method ReadUInt32() returns (r: Decoded<nat>)
      requires Valid()
      modifies this
      ensures Valid() && r == DecCount(buf, old(pos)) && (r.Ok? ==> pos == r.pos)
    {
      var v :- ReadPrim(UInt32);
      return Ok(v.0.bits, pos);
    }

    method ReadString() returns (r: Decoded<seq<byte>>)
      requires Valid()
      modifies this
      ensures Valid() && r == DecText(buf, old(pos)) && (r.Ok? ==> pos == r.pos)
    {
      var counted :- ReadUInt32();
      var len := counted.0;
      if len == 0 || pos + len > |buf| {
        return Thrown(InvalidStringLength);
      }
      var s := buf[pos..pos + len - 1];
      pos := pos + len;
      return Ok(s, pos);
    }
  }
}
