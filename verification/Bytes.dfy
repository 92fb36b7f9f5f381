/** Big-endian integers and bitwise operators on unsigned integers. */
module Bytes {
  import opened Types

  function U16(hi: byte, lo: byte): (v: int)
    ensures 0 <= v < 0x1_0000
  {
    256 * hi + lo
  }

  function U16Bytes(v: u16): seq<byte> { [v / 256, v % 256] }

  function Append(high: nat, low: byte): nat { 256 * high + low }

  function U32(b: Octets4): u32 {
    Append(Append(Append(b[0], b[1]), b[2]), b[3])
  }

  function U32Bytes(v: u32): Octets4 {
    var v3: nat := v / 256;
    var v2: nat := v3 / 256;
    var v1: nat := v2 / 256;
    [v1, v2 % 256, v3 % 256, v % 256]
  }

  function Bit(b: bool): nat { if b then 1 else 0 }

  /** Exclusive or, one binary digit at a time. */
  function BitXor(a: nat, b: nat): nat {
    if a == 0 && b == 0 then 0
    else Bit(a % 2 != b % 2) + 2 * BitXor(a / 2, b / 2)
  }

  /** Conjunction, one binary digit at a time. */
  function BitAnd(a: nat, b: nat): nat {
    if a == 0 || b == 0 then 0
    else Bit(a % 2 == 1 && b % 2 == 1) + 2 * BitAnd(a / 2, b / 2)
  }

  function BinaryDigit(n: nat, k: nat): (d: nat)
    ensures d < 2
  {
    if k == 0 then n % 2 else BinaryDigit(n / 2, k - 1)
  }

  lemma XorHalves(a: nat, b: nat)
    ensures BitXor(a, b) % 2 == Bit(a % 2 != b % 2) && BitXor(a, b) / 2 == BitXor(a / 2, b / 2)
  {
  }

  lemma AndHalves(a: nat, b: nat)
    ensures BitAnd(a, b) % 2 == Bit(a % 2 == 1 && b % 2 == 1) && BitAnd(a, b) / 2 == BitAnd(a / 2, b / 2)
  {
  }

  /** A digit of the exclusive or is set exactly if just one of the operands has it. */
  lemma {:induction false} XorDigits(a: nat, b: nat, k: nat)
    ensures BinaryDigit(BitXor(a, b), k) == 1 <==> BinaryDigit(a, k) != BinaryDigit(b, k)
  {
    hide BitXor;
    XorHalves(a, b);
    if k > 0 {
      XorDigits(a / 2, b / 2, k - 1);
    }
  }

  /** A digit of the conjunction is set exactly if both operands have it. */
  lemma {:induction false} AndDigits(a: nat, b: nat, k: nat)
    ensures BinaryDigit(BitAnd(a, b), k) == 1 <==> BinaryDigit(a, k) == 1 && BinaryDigit(b, k) == 1
  {
    hide BitAnd;
    AndHalves(a, b);
    if k > 0 {
      AndDigits(a / 2, b / 2, k - 1);
    }
  }

  function Pow2(k: nat): nat {
    if k == 0 then 1 else 2 * Pow2(k - 1)
  }

  lemma Pow2Of8()
    ensures Pow2(8) == 256
  {
    assert Pow2(4) == 16;
    assert Pow2(6) == 4 * Pow2(4);
    assert Pow2(8) == 4 * Pow2(6);
  }

  /** Exclusive or never needs more bits than its wider operand. */
  lemma {:induction false} XorBound(a: nat, b: nat, k: nat)
    requires a < Pow2(k) && b < Pow2(k)
    ensures BitXor(a, b) < Pow2(k)
  {
    if k > 0 {
      XorBound(a / 2, b / 2, k - 1);
    }
  }

  /** Applying the same mask twice is the identity. */
  lemma {:induction false} XorInvolutive(a: nat, b: nat)
    ensures BitXor(BitXor(a, b), b) == a
  {
    if a != 0 || b != 0 {
      var x := BitXor(a, b);
      XorInvolutive(a / 2, b / 2);
      assert x % 2 == Bit(a % 2 != b % 2) && x / 2 == BitXor(a / 2, b / 2);
      if x == 0 {
        assert BitXor(x, b) == Bit(x % 2 != b % 2) + 2 * BitXor(x / 2, b / 2);
      }
    }
  }

  function ShiftLeft(h: nat, k: nat): nat {
    if k == 0 then h else 2 * ShiftLeft(h, k - 1)
  }

  /** Exclusive or works on the high and the low part of a number separately. */
  lemma {:induction false} XorSplit(h1: nat, l1: nat, h2: nat, l2: nat, k: nat)
    requires l1 < Pow2(k) && l2 < Pow2(k)
    ensures BitXor(ShiftLeft(h1, k) + l1, ShiftLeft(h2, k) + l2) == ShiftLeft(BitXor(h1, h2), k) + BitXor(l1, l2)
  {
    if k == 0 {
      assert BitXor(0, 0) == 0;
    } else {
      hide *;
      HalfFits(l1, k);
      HalfFits(l2, k);
      XorSplit(h1, l1 / 2, h2, l2 / 2, k - 1);
      XorSplitStep(h1, l1, h2, l2, k);
    }
  }

  lemma XorSplitStep(h1: nat, l1: nat, h2: nat, l2: nat, k: nat)
    requires k > 0
    requires BitXor(ShiftLeft(h1, k - 1) + l1 / 2, ShiftLeft(h2, k - 1) + l2 / 2)
      == ShiftLeft(BitXor(h1, h2), k - 1) + BitXor(l1 / 2, l2 / 2)
    ensures BitXor(ShiftLeft(h1, k) + l1, ShiftLeft(h2, k) + l2) == ShiftLeft(BitXor(h1, h2), k) + BitXor(l1, l2)
  {
    hide *;
    ShiftStep(h1, k);
    ShiftStep(h2, k);
    ShiftStep(BitXor(h1, h2), k);
    XorStep(ShiftLeft(h1, k - 1), l1, ShiftLeft(h2, k - 1), l2);
  }

  lemma HalfFits(l: nat, k: nat)
    requires k > 0 && l < Pow2(k)
    ensures l / 2 < Pow2(k - 1)
  {
  }

  lemma ShiftStep(h: nat, k: nat)
    requires k > 0
    ensures ShiftLeft(h, k) == 2 * ShiftLeft(h, k - 1)
  {
  }

  lemma XorStep(x1: nat, l1: nat, x2: nat, l2: nat)
    ensures BitXor(2 * x1 + l1, 2 * x2 + l2) == Bit(l1 % 2 != l2 % 2) + 2 * BitXor(x1 + l1 / 2, x2 + l2 / 2)
    ensures BitXor(l1, l2) == Bit(l1 % 2 != l2 % 2) + 2 * BitXor(l1 / 2, l2 / 2)
  {
    assert BitXor(0, 0) == 0;
    assert (2 * x1 + l1) / 2 == x1 + l1 / 2 && (2 * x2 + l2) / 2 == x2 + l2 / 2;
    assert (2 * x1 + l1) % 2 == l1 % 2 && (2 * x2 + l2) % 2 == l2 % 2;
  }

  lemma XorAppend(h1: nat, l1: byte, h2: nat, l2: byte)
    ensures BitXor(Append(h1, l1), Append(h2, l2)) == Append(BitXor(h1, h2), XorByte(l1, l2))
  {
    hide BitXor;
    ghost var h, l := BitXor(h1, h2), XorByte(l1, l2);
    assert BitXor(ShiftLeft(h1, 8) + l1, ShiftLeft(h2, 8) + l2) == ShiftLeft(h, 8) + l by {
      Pow2Of8();
      XorSplit(h1, l1, h2, l2, 8);
    }
    ShiftOctet(h1);
    ShiftOctet(h2);
    ShiftOctet(h);
  }

  lemma ShiftOctet(h: nat)
    ensures ShiftLeft(h, 8) == 256 * h
  {
    assert ShiftLeft(h, 1) == 2 * h;
    assert ShiftLeft(h, 2) == 2 * ShiftLeft(h, 1);
    assert ShiftLeft(h, 4) == 4 * ShiftLeft(h, 2);
    assert ShiftLeft(h, 6) == 4 * ShiftLeft(h, 4);
  }

  /** Exclusive or of two octets is an octet. */
  function XorByte(a: byte, b: byte): (r: byte)
    ensures r == BitXor(a, b)
  {
    Pow2Of8();
    XorBound(a, b, 8);
    BitXor(a, b)
  }

  function XorBytes(a: seq<byte>, b: seq<byte>): (r: seq<byte>)
    requires |a| <= |b|
    ensures |r| == |a| && forall i | 0 <= i < |a| :: r[i] == XorByte(a[i], b[i])
  {
    seq(|a|, i requires 0 <= i < |a| => XorByte(a[i], b[i]))
  }

  lemma XorByteInvolutive(a: byte, b: byte)
    ensures XorByte(XorByte(a, b), b) == a
  {
    XorInvolutive(a, b);
  }

  /** The word-wide exclusive or of two big-endian words is the exclusive or of their octets. */
  lemma XorWordIsBytewise(a: Octets4, b: Octets4)
    ensures BitXor(U32(a), U32(b)) == U32(XorBytes(a, b))
  {
    XorAppend(a[0], a[1], b[0], b[1]);
    XorAppend(Append(a[0], a[1]), a[2], Append(b[0], b[1]), b[2]);
    XorAppend(Append(Append(a[0], a[1]), a[2]), a[3], Append(Append(b[0], b[1]), b[2]), b[3]);
  }

  lemma U16RoundTrip(v: u16)
    ensures U16(U16Bytes(v)[0], U16Bytes(v)[1]) == v
  {
  }

  lemma U16Field(v: u16, hi: byte, lo: byte)
    ensures [hi, lo] == U16Bytes(v) <==> U16(hi, lo) == v
  {
    AppendParts(hi, lo);
  }

  lemma U32RoundTrip(b: Octets4)
    ensures U32Bytes(U32(b)) == b
  {
    AppendParts(Append(Append(b[0], b[1]), b[2]), b[3]);
    AppendParts(Append(b[0], b[1]), b[2]);
    AppendParts(b[0], b[1]);
  }

  lemma AppendParts(high: nat, low: byte)
    ensures Append(high, low) / 256 == high && Append(high, low) % 256 == low
  {
  }

  lemma SameElements<T>(a: seq<T>, b: seq<T>)
    ensures a == b <==> |a| == |b| && forall i | 0 <= i < |a| :: a[i] == b[i]
  {
  }

  lemma Concatenate3<T>(a: seq<T>, b: seq<T>, c: seq<T>)
    ensures a + (b + c) == a + b + c
    ensures (a + b + c)[|a|..] == b + c
    ensures (a + b + c)[|a| + |b|..] == c
  {
  }

  lemma SliceOfSlice<T>(s: seq<T>, from: nat, to: nat, i: nat, j: nat)
    requires from <= to <= |s| && i <= j <= to - from
    ensures s[from..to][i..j] == s[from + i..from + j]
  {
    var a, b := s[from..to][i..j], s[from + i..from + j];
    assert forall k | 0 <= k < |a| :: a[k] == s[from + i + k] && b[k] == s[from + i + k];
  }

  lemma PrefixAt<T>(s: seq<T>, pos: nat, w: seq<T>)
    requires pos <= |s|
    ensures w <= s[pos..] <==> pos + |w| <= |s| && s[pos..pos + |w|] == w
  {
    if pos + |w| <= |s| {
      assert s[pos..][..|w|] == s[pos..pos + |w|];
    }
  }

  lemma ConcatAt<T>(s: seq<T>, from: nat, a: seq<T>, b: seq<T>)
    requires from + |a| + |b| <= |s|
    ensures s[from..from + |a| + |b|] == a + b <==>
      s[from..from + |a|] == a && s[from + |a|..from + |a| + |b|] == b
  {
    var w := s[from..from + |a| + |b|];
    SliceOfSlice(s, from, from + |a| + |b|, 0, |a|);
    SliceOfSlice(s, from, from + |a| + |b|, |a|, |a| + |b|);
    assert w == w[0..|a|] + w[|a|..|a| + |b|];
    if w == a + b {
      assert (a + b)[0..|a|] == a && (a + b)[|a|..|a| + |b|] == b;
    }
  }

  lemma DropOfSlice<T>(s: seq<T>, from: nat, to: nat, i: nat)
    requires from <= to <= |s| && i <= to - from
    ensures s[from..to][i..] == s[from + i..to]
  {
  }

  /** Masking with a multiple of two ignores the lowest bit. */
  lemma AndShift(a: nat, m: nat)
    ensures BitAnd(a, 2 * m) == 2 * BitAnd(a / 2, m)
  {
  }

  /** The masks the DNS code applies to octets, as ranges and digits. */
  lemma ByteMasks(b: byte)
    ensures BitAnd(b, 0xC0) == 0xC0 <==> b >= 192
    ensures BitAnd(b, 0x80) == 0 <==> b < 128
    ensures BitAnd(b, 0x02) == 0 <==> b / 2 % 2 == 0
    ensures BitAnd(b, 0x0F) == b % 16
  {
    TopMask(b, 3);
    TopMask(b, 2);
    AndShift(b, 1);
    LowMask(b);
    assert BitAnd(b / 64, 3) == 3 <==> b / 64 == 3;
    assert BitAnd(b / 64, 2) == 0 <==> b / 64 < 2;
  }

  lemma TopMask(b: byte, m: nat)
    ensures BitAnd(b, 64 * m) == 64 * BitAnd(b / 64, m)
  {
    Quarter(b, 16 * m);
    Quarter(b / 4, 4 * m);
    Quarter(b / 16, m);
    assert b / 4 / 4 / 4 == b / 64;
  }

  lemma Quarter(a: nat, m: nat)
    ensures BitAnd(a, 4 * m) == 4 * BitAnd(a / 4, m)
  {
    var n := 2 * m;
    assert 4 * m == 2 * n && a / 2 / 2 == a / 4;
    AndShift(a, n);
    AndShift(a / 2, m);
  }

  lemma LowMask(b: byte)
    ensures BitAnd(b, 15) == b % 16
  {
    var b1: nat := b / 2;
    var b2 := b1 / 2;
    var b3 := b2 / 2;
    AndOddShift(b, 7);
    AndOddShift(b1, 3);
    AndOddShift(b2, 1);
    AndOddShift(b3, 0);
    Remainder16(b3 / 2, 8 * (b3 % 2) + 4 * (b2 % 2) + 2 * (b1 % 2) + b % 2);
  }

  lemma Remainder16(q: nat, r: nat)
    requires r < 16
    ensures (16 * q + r) % 16 == r
  {
  }

  lemma AndOddShift(a: nat, m: nat)
    ensures BitAnd(a, 2 * m + 1) == a % 2 + 2 * BitAnd(a / 2, m)
  {
    var n := 2 * m + 1;
    assert n / 2 == m && n % 2 == 1;
  }
}
