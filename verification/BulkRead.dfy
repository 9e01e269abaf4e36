// Reading a run of primitives with one alignment and one copy, against the per-element reference.
module BulkRead {
  import opened Bytes
  import opened Schema
  import opened Encoding
  import opened Decoding

  lemma ProductStep(n: nat, size: nat)
    requires n > 0
    ensures n * size == size + (n - 1) * size
  {
  }

  lemma MemoryLength(p: Prim, vs: seq<Value>)
    requires TypedAll(Primitive(p), vs)
    ensures |Memory(p, vs)| == |vs| * SizeOf(p)
  {
    hide LittleEndian, SizeOf;
    if vs != [] {
      ProductStep(|vs|, SizeOf(p));
      MemoryLength(p, vs[1..]);
    }
  }

  /** The elements a vector has after its memory was overwritten with `raw`. */
  function FromMemory(p: Prim, n: nat, raw: seq<byte>): (vs: seq<Value>)
    requires |raw| == n * SizeOf(p)
    ensures |vs| == n
  {
    if n == 0 then []
    else
      ProductStep(n, SizeOf(p));
      [FromRaw(p, raw[..SizeOf(p)])] + FromMemory(p, n - 1, raw[SizeOf(p)..])
  }

  lemma AlignedPrimRead(p: Prim, bs: seq<byte>, pos: nat)
    requires 4 <= pos <= |bs| && Pad(pos - 4, SizeOf(p)) == 0
    ensures DecPrim(p, bs, pos) ==
            if pos + SizeOf(p) > |bs| then Thrown(ReadPastEnd)
            else Ok(FromRaw(p, bs[pos..pos + SizeOf(p)]), pos + SizeOf(p))
  {
    hide Pad, FromRaw, SizeOf;
  }

  /** Below an aligned position the copy and the loop succeed together, fail together, and yield the same values. */
  lemma {:induction false} BulkReadFromAligned(p: Prim, n: nat, bs: seq<byte>, pos: nat)
    requires 4 <= pos <= |bs| && Pad(pos - 4, SizeOf(p)) == 0
    ensures DecElems(Primitive(p), n, bs, pos) ==
            if pos + n * SizeOf(p) > |bs| then Thrown(ReadPastEnd)
            else Ok(FromMemory(p, n, bs[pos..pos + n * SizeOf(p)]), pos + n * SizeOf(p))
  {
    hide Pad, FromRaw, SizeOf, DecPrim;
    if n > 0 {
      var size := SizeOf(p);
      var more := (n - 1) * size;
      assert n * size == size + more by { ProductStep(n, size); }
      AlignedPrimRead(p, bs, pos);
      if pos + size <= |bs| {
        assert Pad(pos + size - 4, size) == 0 by { StepStaysAligned(pos - 4, size); }
        BulkReadFromAligned(p, n - 1, bs, pos + size);
        if pos + size + more <= |bs| {
          TakeSplits(bs, pos, size, more);
        }
      }
    }
  }

  lemma TakeSplits(bs: seq<byte>, pos: nat, a: nat, b: nat)
    requires pos + a + b <= |bs|
    ensures var raw := bs[pos..pos + (a + b)];
            raw[..a] == bs[pos..pos + a] && raw[a..] == bs[pos + a..pos + a + b]
  {
  }

  lemma UnalignedPrimRead(p: Prim, bs: seq<byte>, pos: nat)
    requires 4 <= pos <= |bs|
    ensures var q := pos + Pad(pos - 4, SizeOf(p));
            DecPrim(p, bs, pos) == if q > |bs| then Thrown(AlignmentPastEnd) else DecPrim(p, bs, q)
  {
    hide FromRaw, SizeOf;
    PadAligns(pos - 4, SizeOf(p));
  }

  /** The loop that aligns every element is one alignment followed by the aligned loop. */
  lemma AlignFirst(p: Prim, n: nat, bs: seq<byte>, pos: nat)
    requires 4 <= pos <= |bs| && n > 0
    ensures var q := pos + Pad(pos - 4, SizeOf(p));
            DecElems(Primitive(p), n, bs, pos) ==
            if q > |bs| then Thrown(AlignmentPastEnd) else DecElems(Primitive(p), n, bs, q)
  {
    hide Pad, FromRaw, SizeOf, DecPrim;
    UnalignedPrimRead(p, bs, pos);
  }
}
