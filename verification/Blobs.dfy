// Opaque transport samples: fragments and scatter lists are copied into one zero-padded payload.
module Blobs {
  import opened Bytes
  import opened Schema
  import opened Decoding
  import opened Wrappers

  /** `(0u - static_cast<unsigned int>(requested)) % 4u`, unsigned wrap-around included. */
  function BlobPad(requested: nat): nat {
    var low := requested % U32_LIMIT;
    (if low == 0 then 0 else U32_LIMIT - low) % 4
  }

  lemma NegationMod4(low: nat)
    requires 0 < low < U32_LIMIT
    ensures (U32_LIMIT - low) % 4 == if low % 4 == 0 then 0 else 4 - low % 4
  {
    var q, r := low / 4, low % 4;
    assert U32_LIMIT - low == 4 * (0x4000_0000 - q) - r;
  }

  lemma ShiftMod4(k: nat, x: nat)
    ensures (4 * k + x) % 4 == x % 4
  {
  }

  lemma CompletesMod4(low: nat)
    ensures (low + (if low % 4 == 0 then 0 else 4 - low % 4)) % 4 == 0
  {
  }

  /** Fewer than four octets, up to a multiple of four, also for sizes beyond 32 bits. */
  lemma BlobPadAligns(requested: nat)
    ensures BlobPad(requested) < 4 && (requested + BlobPad(requested)) % 4 == 0
  {
    var low, high, pad := requested % U32_LIMIT, requested / U32_LIMIT, BlobPad(requested);
    var k := 0x4000_0000 * high;
    assert requested == 4 * k + low;
    assert pad == if low % 4 == 0 then 0 else 4 - low % 4 by {
      if low > 0 {
        NegationMod4(low);
      }
    }
    CompletesMod4(low);
    ShiftMod4(k, low + pad);
    assert requested + pad == 4 * k + (low + pad);
  }

  /** The payload CycloneDDS hands back for a sample. */
  function Padded(sample: seq<byte>): seq<byte> {
    sample + Zeros(BlobPad(|sample|))
  }

  /** `memcpy(dst + at, src, |src|)`. */
  method Memcpy(dst: array<byte>, at: nat, src: seq<byte>)
    requires at + |src| <= dst.Length
    modifies dst
    ensures dst[..] == old(dst[..at]) + src + old(dst[at + |src|..])
  {
    for i := 0 to |src|
      invariant dst[..] == old(dst[..at]) + src[..i] + old(dst[at + i..])
    {
      dst[at + i] := src[i];
    }
  }

  /** `raw_resize`. */
  method Resize(requested: nat) returns (payload: array<byte>)
    ensures fresh(payload) && payload[..] == Zeros(requested + BlobPad(requested))
  {
    payload := new byte[requested + BlobPad(requested)](_ => 0);
  }

  /** One fragment of a sample: the octets [min, maxp1). */
  datatype Fragment = Fragment(min: nat, maxp1: nat, octets: seq<byte>)

  predicate FragmentOf(f: Fragment, sample: seq<byte>) {
    f.min <= f.maxp1 <= |sample| && f.octets == sample[f.min..f.maxp1]
  }

  /** How far the chain covers the sample when the first `off` octets are already there. */
  function Covered(chain: seq<Fragment>, off: nat): (r: nat)
    ensures r >= off
  {
    if chain == [] then off
    else Covered(chain[1..], if chain[0].maxp1 > off then chain[0].maxp1 else off)
  }

  /** Every fragment that contributes starts no later than the octets covered before it. */
  predicate Gapless(chain: seq<Fragment>, off: nat) {
    chain == [] ||
    (if chain[0].maxp1 > off then chain[0].min <= off && Gapless(chain[1..], chain[0].maxp1)
     else Gapless(chain[1..], off))
  }

  /** What is covered in the end is the furthest end of any fragment. */
  lemma {:induction false} CoveredIsFurthest(chain: seq<Fragment>, off: nat)
    ensures forall i :: 0 <= i < |chain| ==> chain[i].maxp1 <= Covered(chain, off)
    ensures Covered(chain, off) == off || exists i :: 0 <= i < |chain| && chain[i].maxp1 == Covered(chain, off)
    decreases |chain|
  {
    if chain != [] {
      var next := if chain[0].maxp1 > off then chain[0].maxp1 else off;
      CoveredIsFurthest(chain[1..], next);
      forall i | 0 <= i < |chain| ensures chain[i].maxp1 <= Covered(chain, off) {
        if i > 0 {
          assert chain[1..][i - 1] == chain[i];
        }
      }
      if Covered(chain, off) != next {
        var i :| 0 <= i < |chain[1..]| && chain[1..][i].maxp1 == Covered(chain, off);
        assert chain[i + 1].maxp1 == Covered(chain, off);
      }
    }
  }

  /** A chain is gapless iff every fragment that ends beyond what the ones before it cover starts within that. */
  lemma {:induction false} GaplessMeans(chain: seq<Fragment>, off: nat)
    ensures Gapless(chain, off) <==>
              forall i :: 0 <= i < |chain| && chain[i].maxp1 > Covered(chain[..i], off) ==>
                chain[i].min <= Covered(chain[..i], off)
    decreases |chain|
  {
    if chain != [] {
      var rest, next := chain[1..], if chain[0].maxp1 > off then chain[0].maxp1 else off;
      GaplessMeans(rest, next);
      assert Covered(chain[..0], off) == off;
      forall i | 0 < i < |chain| ensures chain[i] == rest[i - 1] && Covered(chain[..i], off) == Covered(rest[..i - 1], next) {
        assert chain[..i][0] == chain[0] && chain[..i][1..] == rest[..i - 1];
      }
      forall i | 0 <= i < |rest| ensures rest[i] == chain[i + 1] && Covered(rest[..i], next) == Covered(chain[..i + 1], off) {
        assert chain[..i + 1][0] == chain[0] && chain[..i + 1][1..] == rest[..i];
      }
    }
  }

  lemma {:induction false} CoveredWithin(chain: seq<Fragment>, off: nat, sample: seq<byte>)
    requires (forall i | 0 <= i < |chain| :: FragmentOf(chain[i], sample)) && off <= |sample|
    ensures Covered(chain, off) <= |sample|
    decreases |chain|
  {
    if chain != [] {
      assert FragmentOf(chain[0], sample);
      CoveredWithin(chain[1..], if chain[0].maxp1 > off then chain[0].maxp1 else off, sample);
    }
  }

  lemma Assemble(sample: seq<byte>, off: nat, next: nat, before: seq<byte>, after: seq<byte>)
    requires off <= next <= |sample| <= |before| && before == sample[..off] + Zeros(|before| - off)
    requires after == before[..off] + sample[off..next] + before[next..]
    ensures after == sample[..next] + Zeros(|before| - next)
  {
    assert before[..off] == sample[..off];
    assert before[next..] == Zeros(|before| - next);
    assert sample[..off] + sample[off..next] == sample[..next];
  }

  /** Copy what a fragment adds to the first `off` octets; yields the advanced cursor. */
  method CopyFragment(payload: array<byte>, cursor: nat, f: Fragment, off: nat, ghost sample: seq<byte>)
      returns (next: nat)
    requires FragmentOf(f, sample) && f.min <= off < f.maxp1 && cursor == off && |sample| <= payload.Length
    requires payload[..] == sample[..off] + Zeros(payload.Length - off)
    modifies payload
    ensures next == f.maxp1 && payload[..] == sample[..next] + Zeros(payload.Length - next)
  {
    var src := f.octets[off - f.min..];
    assert src == sample[off..f.maxp1];
    ghost var before := payload[..];
    Memcpy(payload, cursor, src);
    Assemble(sample, off, f.maxp1, before, payload[..]);
    next := cursor + |src|;
  }

  /** `raw_from_ser`: overlapping fragments are trimmed to the part that is still missing. */
  method RawFromSer(chain: seq<Fragment>, ghost sample: seq<byte>, size: nat) returns (payload: array<byte>)
    requires size == |sample| && Gapless(chain, 0)
    requires forall i | 0 <= i < |chain| :: FragmentOf(chain[i], sample)
    ensures fresh(payload)
    ensures var n := Covered(chain, 0);
            n <= |sample| && payload[..] == sample[..n] + Zeros(|sample| + BlobPad(|sample|) - n)
    ensures Covered(chain, 0) == |sample| ==> payload[..] == Padded(sample)
  {
    CoveredWithin(chain, 0, sample);
    payload := Resize(size);
    var off: nat, cursor: nat, i: nat := 0, 0, 0;
    while i < |chain|
      invariant 0 <= i <= |chain| && off == cursor <= |sample|
      invariant payload.Length == |sample| + BlobPad(|sample|) && fresh(payload)
      invariant Gapless(chain[i..], off) && Covered(chain[i..], off) == Covered(chain, 0)
      invariant payload[..] == sample[..off] + Zeros(payload.Length - off)
    {
      var f := chain[i];
      assert FragmentOf(f, sample) && chain[i..][0] == f && chain[i..][1..] == chain[i + 1..];
      if f.maxp1 > off {
        cursor := CopyFragment(payload, cursor, f, off, sample);
        off := f.maxp1;
      }
      i := i + 1;
    }
    assert sample[..|sample|] == sample;
  }

  function Flatten(parts: seq<seq<byte>>): seq<byte> {
    if parts == [] then [] else Flatten(parts[..|parts| - 1]) + parts[|parts| - 1]
  }

  /** Two lists of parts flatten one after the other. */
  lemma {:induction false} FlattenConcat(a: seq<seq<byte>>, b: seq<seq<byte>>, part: seq<byte>)
    ensures Flatten(a + b) == Flatten(a) + Flatten(b)
    ensures Flatten([part]) == part
    decreases |b|
  {
    assert Flatten([part]) == Flatten([]) + part == part by { assert [part][..0] == []; }
    if b == [] {
      assert a + b == a;
    } else {
      assert (a + b)[..|a + b| - 1] == a + b[..|b| - 1];
      FlattenConcat(a, b[..|b| - 1], part);
    }
  }

  lemma {:induction false} FlattenGrows(parts: seq<seq<byte>>, n: nat)
    requires n <= |parts|
    ensures |Flatten(parts[..n])| <= |Flatten(parts)|
    decreases |parts|
  {
    if n < |parts| {
      var most := parts[..|parts| - 1];
      assert parts[..n] == most[..n];
      FlattenGrows(most, n);
    } else {
      assert parts[..n] == parts;
    }
  }

  lemma FlattenNone()
    ensures Flatten([]) == []
  {
  }

  lemma FlattenOneMore(parts: seq<seq<byte>>, i: nat)
    requires i < |parts|
    ensures Flatten(parts[..i + 1]) == Flatten(parts[..i]) + parts[i]
  {
    assert parts[..i + 1][..i] == parts[..i];
  }

  lemma AppendPart(done: seq<byte>, part: seq<byte>, before: seq<byte>, after: seq<byte>)
    requires |done| + |part| <= |before| && before == done + Zeros(|before| - |done|)
    requires after == before[..|done|] + part + before[|done| + |part|..]
    ensures after == (done + part) + Zeros(|before| - |done| - |part|)
  {
    assert before[..|done|] == done;
    assert before[|done| + |part|..] == Zeros(|before| - |done| - |part|);
  }

  /** `raw_from_ser_iov`: the parts one after the other; they must fit the padded payload. */
  method RawFromSerIov(parts: seq<seq<byte>>, size: nat) returns (payload: array<byte>)
    requires |Flatten(parts)| <= size + BlobPad(size)
    ensures fresh(payload)
    ensures payload[..] == Flatten(parts) + Zeros(size + BlobPad(size) - |Flatten(parts)|)
  {
    hide Flatten, BlobPad;
    payload := Resize(size);
    var cursor := 0;
    assert parts[..0] == [] && Flatten([]) == [] by { FlattenNone(); }
    for i := 0 to |parts|
      invariant fresh(payload) && payload.Length == size + BlobPad(size)
      invariant cursor == |Flatten(parts[..i])| <= payload.Length
      invariant payload[..] == Flatten(parts[..i]) + Zeros(payload.Length - cursor)
    {
      FlattenGrows(parts, i + 1);
      ghost var before, done := payload[..], Flatten(parts[..i]);
      FlattenOneMore(parts, i);
      Memcpy(payload, cursor, parts[i]);
      AppendPart(done, parts[i], before, payload[..]);
      cursor := cursor + |parts[i]|;
    }
    assert parts[..|parts|] == parts;
  }

  /** `raw_serdata_from_blob`; `lengths` is the range of the platform's iovec length, 2^32 or 2^64. */
  method RawSerdataFromBlob(blob: seq<byte>, lengths: nat) returns (payload: Option<array<byte>>)
    requires lengths > 0
    ensures payload.Some? <==> |blob| < lengths
    ensures payload.Some? ==> fresh(payload.value) && payload.value[..] == Padded(blob)
    ensures payload.Some? ==>
              && payload.value.Length % 4 == 0 && |blob| <= payload.value.Length < |blob| + 4
              && payload.value[..|blob|] == blob && forall i :: |blob| <= i < payload.value.Length ==> payload.value[i] == 0
  {
    if |blob| % lengths != |blob| {
      return None;
    }
    assert Flatten([blob]) == Flatten([]) + blob == blob by { assert [blob][..0] == []; }
    BlobPadAligns(|blob|);
    var d := RawFromSerIov([blob], |blob|);
    assert d[..|blob|] == blob;
    payload := Some(d);
  }

  // --- padding never disturbs decoding ------------------------------------------------

  lemma ExtendedTake(bs: seq<byte>, pos: nat, size: nat, more: seq<byte>)
    requires pos + size <= |bs|
    ensures (bs + more)[pos..pos + size] == bs[pos..pos + size]
  {
  }

  lemma PrimExtends(p: Prim, bs: seq<byte>, pos: nat, more: seq<byte>)
    requires 4 <= pos <= |bs| && DecPrim(p, bs, pos).Ok?
    ensures DecPrim(p, bs + more, pos) == DecPrim(p, bs, pos)
  {
    hide Pad, FromRaw, SizeOf;
    ExtendedTake(bs, pos + Pad(pos - 4, SizeOf(p)), SizeOf(p), more);
  }

  lemma TextExtends(bs: seq<byte>, pos: nat, more: seq<byte>)
    requires 4 <= pos <= |bs| && DecText(bs, pos).Ok?
    ensures DecText(bs + more, pos) == DecText(bs, pos)
  {
    hide DecPrim;
    PrimExtends(UInt32, bs, pos, more);
    var count := DecCount(bs, pos);
    ExtendedTake(bs, count.pos, count.value - 1, more);
  }

  lemma {:induction false} ElemExtends(e: Elem, bs: seq<byte>, pos: nat, more: seq<byte>)
    requires 4 <= pos <= |bs| && DecElem(e, bs, pos).Ok?
    ensures DecElem(e, bs + more, pos) == DecElem(e, bs, pos)
    decreases e, 0, 0
  {
    match e
    case Primitive(p) => PrimExtends(p, bs, pos, more);
    case Text => TextExtends(bs, pos, more);
    case Nested(fs) => AcceptanceExtends(fs, bs, pos, more);
  }

  lemma {:induction false} ElemsExtend(e: Elem, n: nat, bs: seq<byte>, pos: nat, more: seq<byte>)
    requires 4 <= pos <= |bs| && DecElems(e, n, bs, pos).Ok?
    ensures DecElems(e, n, bs + more, pos) == DecElems(e, n, bs, pos)
    decreases e, 1, n
  {
    hide DecElem;
    if n > 0 {
      ElemExtends(e, bs, pos, more);
      ElemsExtend(e, n - 1, bs, DecElem(e, bs, pos).pos, more);
    }
  }

  lemma {:induction false} MemberExtends(k: Kind, e: Elem, bs: seq<byte>, pos: nat, more: seq<byte>)
    requires 4 <= pos <= |bs| && DecMember(k, e, bs, pos).Ok?
    ensures DecMember(k, e, bs + more, pos) == DecMember(k, e, bs, pos)
    decreases e, 2
  {
    hide DecElems, DecPrim, Pad;
    if k.Sequence? {
      PrimExtends(UInt32, bs, pos, more);
    }
    var head := DecHead(k, e, bs, pos);
    assert DecHead(k, e, bs + more, pos) == head;
    ElemsExtend(e, head.value, bs, head.pos, more);
  }

  /** Whatever octets follow, an accepted buffer keeps its value and end position. */
  lemma {:induction false} AcceptanceExtends(fs: Fields, bs: seq<byte>, pos: nat, more: seq<byte>)
    requires 4 <= pos <= |bs| && DecFields(fs, bs, pos).Ok?
    ensures DecFields(fs, bs + more, pos) == DecFields(fs, bs, pos)
    decreases fs, 0
  {
    hide DecMember;
    if fs.Field? {
      MemberExtends(fs.kind, fs.elem, bs, pos, more);
      AcceptanceExtends(fs.rest, bs, DecMember(fs.kind, fs.elem, bs, pos).pos, more);
    }
  }

  /** Decoding the padded payload of any accepted buffer gives the same message. */
  lemma PaddingKeepsMessage(fs: Fields, bs: seq<byte>)
    requires |bs| >= 4 && DecFields(fs, bs, 4).Ok?
    ensures DecFields(fs, Padded(bs), 4) == DecFields(fs, bs, 4)
  {
    AcceptanceExtends(fs, bs, 4, Zeros(BlobPad(|bs|)));
  }
}
