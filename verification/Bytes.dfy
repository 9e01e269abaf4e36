// Octets, little-endian numbers and the padding arithmetic shared by every wire module.
module Bytes {
  type byte = b: int | 0 <= b < 256

  const U32_LIMIT: nat := 0x1_0000_0000
  const U64_LIMIT: nat := 0x1_0000_0000_0000_0000

  function Pow256(n: nat): (r: nat)
    ensures r >= 1
  {
    if n == 0 then 1 else 256 * Pow256(n - 1)
  }

  lemma Pow256Values()
    ensures Pow256(0) == 1 && Pow256(1) == 256
    ensures Pow256(2) == 0x1_0000
    ensures Pow256(4) == U32_LIMIT
    ensures Pow256(8) == U64_LIMIT
  {
    assert Pow256(3) == 256 * Pow256(2);
    assert Pow256(5) == 256 * Pow256(4);
    assert Pow256(7) == 256 * Pow256(6) == 256 * (256 * Pow256(5));
  }

  /** The `n` low octets of `v`, least significant first. */
  function LittleEndian(v: nat, n: nat): (bs: seq<byte>)
    ensures |bs| == n
  {
    if n == 0 then [] else [v % 256] + LittleEndian(v / 256, n - 1)
  }

  function FromLittleEndian(bs: seq<byte>): (v: nat)
    ensures v < Pow256(|bs|)
  {
    if bs == [] then 0 else bs[0] + 256 * FromLittleEndian(bs[1..])
  }

  lemma {:induction false} LittleEndianInverse(v: nat, n: nat)
    requires v < Pow256(n)
    ensures FromLittleEndian(LittleEndian(v, n)) == v
  {
    if n > 0 {
      LittleEndianInverse(v / 256, n - 1);
      assert LittleEndian(v, n)[1..] == LittleEndian(v / 256, n - 1);
    }
  }

  lemma {:induction false} FromLittleEndianInverse(bs: seq<byte>)
    ensures LittleEndian(FromLittleEndian(bs), |bs|) == bs
  {
    if bs != [] {
      var rest := FromLittleEndian(bs[1..]);
      FromLittleEndianInverse(bs[1..]);
      assert FromLittleEndian(bs) / 256 == rest && FromLittleEndian(bs) % 256 == bs[0];
      assert bs == [bs[0]] + bs[1..];
    }
  }

  lemma QuotientIs(v: int, d: nat, q: int, r: nat)
    requires v == d * q + r && r < d
    ensures v / d == q
  {
    SameQuotient(d, v / d, v % d, q, r);
  }

  lemma SameQuotient(d: nat, p: int, s: nat, q: int, r: nat)
    requires d * p + s == d * q + r && s < d && r < d
    ensures p == q
  {
    var k := q - p;
    assert d * k == s - r;
    if k > 0 {
      Scaled(d, 1, k);
    } else if k < 0 {
      Scaled(d, k, -1);
    }
  }

  lemma Scaled(d: nat, a: int, b: int)
    requires a <= b
    ensures d * a <= d * b
  {
  }

  /** Dividing by 256 and then by `d` is dividing by 256 times `d`. */
  lemma DivideTwice(v: nat, d: nat)
    requires d > 0
    ensures (v / 256) / d == v / (256 * d)
  {
    var high, low := v / 256, v % 256;
    var q, r := high / d, high % d;
    assert high == d * q + r;
    assert v == 256 * (d * q) + (256 * r + low);
    assert 256 * (d * q) == (256 * d) * q;
    QuotientIs(v, 256 * d, q, 256 * r + low);
  }

  /** The octet at index i counts the multiples of 256^i: the least significant octet comes first. */
  lemma {:induction false} LittleEndianAt(v: nat, n: nat, i: nat)
    requires i < n
    ensures LittleEndian(v, n)[i] == (v / Pow256(i)) % 256
  {
    if i > 0 {
      LittleEndianAt(v / 256, n - 1, i - 1);
      DivideTwice(v, Pow256(i - 1));
    }
  }

  /** The number an octet string stands for: each octet weighs 256 times the one before it. */
  lemma {:induction false} FromLittleEndianConcat(a: seq<byte>, b: seq<byte>)
    ensures FromLittleEndian(a + b) == FromLittleEndian(a) + Pow256(|a|) * FromLittleEndian(b)
  {
    if a == [] {
      assert a + b == b;
    } else {
      assert (a + b)[1..] == a[1..] + b;
      FromLittleEndianConcat(a[1..], b);
      Carry(a[0], FromLittleEndian(a[1..]), Pow256(|a| - 1), FromLittleEndian(b));
    }
  }

  lemma Carry(b: byte, rest: nat, scale: nat, more: nat)
    ensures b + 256 * (rest + scale * more) == (b + 256 * rest) + (256 * scale) * more
  {
  }

  lemma OneOctet(b: byte)
    ensures FromLittleEndian([b]) == b && LittleEndian(b, 1) == [b]
  {
    assert [b][1..] == [] && FromLittleEndian([]) == 0 && LittleEndian(0, 0) == [];
  }

  lemma FromLittleEndianAt(bs: seq<byte>, i: nat)
    requires i < |bs|
    ensures (FromLittleEndian(bs) / Pow256(i)) % 256 == bs[i]
  {
    FromLittleEndianInverse(bs);
    LittleEndianAt(FromLittleEndian(bs), |bs|, i);
  }

  /** The number the four octets from index `at` on stand for. */
  function CountAt(bs: seq<byte>, at: nat): nat
    requires at + 4 <= |bs|
  {
    var (a: int, b: int, c: int, d: int) := (bs[at], bs[at + 1], bs[at + 2], bs[at + 3]);
    a + 0x100 * b + 0x1_0000 * c + 0x100_0000 * d
  }

  lemma FourOctets(bs: seq<byte>)
    requires |bs| == 4
    ensures FromLittleEndian(bs) == CountAt(bs, 0)
  {
    assert FromLittleEndian(bs[3..]) == bs[3] by { OneOctet(bs[3]); assert bs[3..] == [bs[3]]; }
    assert FromLittleEndian(bs[2..]) == bs[2] + 256 * FromLittleEndian(bs[3..]) by { assert bs[2..][1..] == bs[3..]; }
    assert FromLittleEndian(bs[1..]) == bs[1] + 256 * FromLittleEndian(bs[2..]) by { assert bs[1..][1..] == bs[2..]; }
  }

  function Zeros(n: nat): (bs: seq<byte>)
    ensures |bs| == n
    ensures forall i :: 0 <= i < n ==> bs[i] == 0
  {
    seq(n, _ => 0)
  }

  /** The wire only ever aligns to 1, 2, 4 or 8. */
  predicate IsAlignment(n: nat) {
    n == 1 || n == 2 || n == 4 || n == 8
  }

  /** `a % n`, with literal divisors so that the arithmetic stays linear. */
  function Rest(a: nat, n: nat): (r: nat)
    requires IsAlignment(n)
    ensures r < n
  {
    if n == 1 then 0 else if n == 2 then a % 2 else if n == 4 then a % 4 else a % 8
  }

  /** Octets missing from `offset` up to the next multiple of `n`. */
  function Pad(offset: nat, n: nat): (p: nat)
    requires IsAlignment(n)
    ensures p < n
  {
    Rest(n - Rest(offset, n), n)
  }

  lemma NextMultipleOf2(x: nat)
    ensures var r := x % 2;
            (2 - r) % 2 == (if r == 0 then 0 else 2 - r) && (x + (2 - r)) % 2 == 0
  {
    assert x + (2 - x % 2) == 2 * (x / 2 + 1);
  }

  lemma NoMultipleOf2(x: nat, k: nat)
    requires x % 2 + k < 2
    ensures (x + k) % 2 == x % 2 + k
  {
    assert x + k == 2 * (x / 2) + (x % 2 + k);
  }

  lemma NextMultipleOf4(x: nat)
    ensures var r := x % 4;
            (4 - r) % 4 == (if r == 0 then 0 else 4 - r) && (x + (4 - r)) % 4 == 0
  {
    assert x + (4 - x % 4) == 4 * (x / 4 + 1);
  }

  lemma NoMultipleOf4(x: nat, k: nat)
    requires x % 4 + k < 4
    ensures (x + k) % 4 == x % 4 + k
  {
    assert x + k == 4 * (x / 4) + (x % 4 + k);
  }

  lemma NextMultipleOf8(x: nat)
    ensures var r := x % 8;
            (8 - r) % 8 == (if r == 0 then 0 else 8 - r) && (x + (8 - r)) % 8 == 0
  {
    assert x + (8 - x % 8) == 8 * (x / 8 + 1);
  }

  lemma NoMultipleOf8(x: nat, k: nat)
    requires x % 8 + k < 8
    ensures (x + k) % 8 == x % 8 + k
  {
    assert x + k == 8 * (x / 8) + (x % 8 + k);
  }

  lemma PadAligns(offset: nat, n: nat)
    requires IsAlignment(n)
    ensures Rest(offset + Pad(offset, n), n) == 0
    ensures Pad(offset + Pad(offset, n), n) == 0
    ensures Rest(offset, n) == 0 <==> Pad(offset, n) == 0
  {
    if n == 2 {
      NextMultipleOf2(offset);
    } else if n == 4 {
      NextMultipleOf4(offset);
    } else if n == 8 {
      NextMultipleOf8(offset);
    }
  }

  /** Nothing shorter than the padding reaches a multiple. */
  lemma PadIsLeast(offset: nat, n: nat, k: nat)
    requires IsAlignment(n) && k < Pad(offset, n)
    ensures Rest(offset + k, n) != 0
  {
    if n == 2 {
      NextMultipleOf2(offset);
      NoMultipleOf2(offset, k);
    } else if n == 4 {
      NextMultipleOf4(offset);
      NoMultipleOf4(offset, k);
    } else if n == 8 {
      NextMultipleOf8(offset);
      NoMultipleOf8(offset, k);
    }
  }

  /** Among the numbers below n, the padding is the one that makes the offset a multiple of n. */
  lemma PadIsTheOne(offset: nat, n: nat, k: nat)
    requires IsAlignment(n) && k < n
    ensures k == Pad(offset, n) <==> (offset + k) % n == 0
  {
    PadAligns(offset, n);
    RestIsRemainder(offset + Pad(offset, n), n);
    if k < Pad(offset, n) {
      PadIsLeast(offset, n, k);
      RestIsRemainder(offset + k, n);
    } else if k > Pad(offset, n) {
      NotYetAgain(offset + Pad(offset, n), n, k - Pad(offset, n));
    }
  }

  lemma RestIsRemainder(a: nat, n: nat)
    requires IsAlignment(n)
    ensures Rest(a, n) == a % n
  {
  }

  lemma NotYetAgain(a: nat, n: nat, k: nat)
    requires IsAlignment(n) && a % n == 0 && 0 < k < n
    ensures (a + k) % n != 0
  {
    if n == 2 {
      NoMultipleOf2(a, k);
    } else if n == 4 {
      NoMultipleOf4(a, k);
    } else if n == 8 {
      NoMultipleOf8(a, k);
    }
  }

  lemma ShiftsToMultiplesOf2(a: nat, b: nat)
    requires a <= b <= a + 8
    ensures a + Pad(a, 2) <= b + Pad(b, 2) <= a + Pad(a, 2) + 8
  {
    NextMultipleOf2(a);
    NextMultipleOf2(b);
    var i, j := (a + Pad(a, 2)) / 2, (b + Pad(b, 2)) / 2;
    assert a + Pad(a, 2) == 2 * i && b + Pad(b, 2) == 2 * j;
  }

  lemma ShiftsToMultiplesOf4(a: nat, b: nat)
    requires a <= b <= a + 8
    ensures a + Pad(a, 4) <= b + Pad(b, 4) <= a + Pad(a, 4) + 8
  {
    NextMultipleOf4(a);
    NextMultipleOf4(b);
    var i, j := (a + Pad(a, 4)) / 4, (b + Pad(b, 4)) / 4;
    assert a + Pad(a, 4) == 4 * i && b + Pad(b, 4) == 4 * j;
  }

  lemma ShiftsToMultiplesOf8(a: nat, b: nat)
    requires a <= b <= a + 8
    ensures a + Pad(a, 8) <= b + Pad(b, 8) <= a + Pad(a, 8) + 8
  {
    NextMultipleOf8(a);
    NextMultipleOf8(b);
    var i, j := (a + Pad(a, 8)) / 8, (b + Pad(b, 8)) / 8;
    assert a + Pad(a, 8) == 8 * i && b + Pad(b, 8) == 8 * j;
  }

  /** Moving an offset by at most eight moves its next multiple by at most eight, in the same direction. */
  lemma PadShifts(a: nat, b: nat, n: nat)
    requires IsAlignment(n) && a <= b <= a + 8
    ensures a + Pad(a, n) <= b + Pad(b, n) <= a + Pad(a, n) + 8
  {
    hide Pad;
    if n == 1 {
      assert Pad(a, 1) == 0 && Pad(b, 1) == 0;
    } else if n == 2 {
      ShiftsToMultiplesOf2(a, b);
    } else if n == 4 {
      ShiftsToMultiplesOf4(a, b);
    } else {
      ShiftsToMultiplesOf8(a, b);
    }
  }

  lemma MultipleOfEight(x: nat, n: nat)
    requires IsAlignment(n) && x % 8 == 0
    ensures Rest(x, n) == 0
  {
    assert x == 8 * (x / 8);
  }

  /** No padding goes past the next multiple of eight. */
  lemma PadWithinEight(offset: nat, n: nat)
    requires IsAlignment(n)
    ensures Pad(offset, n) <= Pad(offset, 8)
  {
    var eight := Pad(offset, 8);
    PadAligns(offset, 8);
    MultipleOfEight(offset + eight, n);
    if eight < Pad(offset, n) {
      PadIsLeast(offset, n, eight);
    }
  }

  lemma EightCountsDown(offset: nat, k: nat)
    requires k <= Pad(offset, 8)
    ensures Pad(offset + k, 8) == Pad(offset, 8) - k
  {
    NextMultipleOf8(offset);
    if k < Pad(offset, 8) {
      NoMultipleOf8(offset, k);
      NextMultipleOf8(offset + k);
    }
  }

  lemma StepStaysAligned(offset: nat, n: nat)
    requires IsAlignment(n) && Pad(offset, n) == 0
    ensures Pad(offset + n, n) == 0
  {
    if n == 1 {
    } else if n == 2 {
    } else if n == 4 {
    } else {
    }
  }

  lemma ConcatAssociates(a: seq<byte>, b: seq<byte>, c: seq<byte>)
    ensures (a + b) + c == a + (b + c)
  {
  }

  /** `part` occupies `whole` from index `at` on. */
  predicate At(whole: seq<byte>, at: nat, part: seq<byte>) {
    at + |part| <= |whole| && whole[at..at + |part|] == part
  }

  lemma AtSplit(whole: seq<byte>, at: nat, a: seq<byte>, b: seq<byte>)
    requires At(whole, at, a + b)
    ensures At(whole, at, a) && At(whole, at + |a|, b)
  {
    var w := whole[at..at + |a + b|];
    assert w[..|a|] == a && w[|a|..] == b;
    assert w[..|a|] == whole[at..at + |a|];
    assert w[|a|..] == whole[at + |a|..at + |a| + |b|];
  }
}
