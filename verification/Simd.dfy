/** The vector instructions the q4_K kernels use, one function per instruction, on
    sequences of lanes in memory order. */
module Simd {

  const I16_MAX := 32767
  const I16_MIN := -32768

  /** Saturate to int16. */
  function Sat16(x: int): int {
    if x > I16_MAX then I16_MAX else if x < I16_MIN then I16_MIN else x
  }

  function Wrap16(x: int): int { (x + 0x8000) % 0x1_0000 - 0x8000 }
  function Wrap32(x: int): int { (x + 0x8000_0000) % 0x1_0000_0000 - 0x8000_0000 }

  predicate Fits16(x: int) { I16_MIN <= x <= I16_MAX }
  predicate Fits32(x: int) { -0x8000_0000 <= x < 0x8000_0000 }

  lemma NoWrap(x: int)
    ensures Fits16(x) ==> Sat16(x) == x && Wrap16(x) == x
    ensures Fits32(x) ==> Wrap32(x) == x
  {
  }

  function Pair(a: seq<int>, b: seq<int>, k: nat): int
    requires |a| == |b| && 2 * k + 1 < |a|
  {
    a[2 * k] * b[2 * k] + a[2 * k + 1] * b[2 * k + 1]
  }

  /** `maddubs`: unsigned bytes times signed bytes, adjacent products added with
      int16 saturation. */
  function Maddubs(u: seq<int>, s: seq<int>): (r: seq<int>)
    requires |u| == |s| && |u| % 2 == 0
    ensures |r| == |u| / 2
  {
    seq(|u| / 2, (k: nat) requires k < |u| / 2 => Sat16(Pair(u, s, k)))
  }

  /** `madd_epi16`: int16 lanes multiplied, adjacent products added in int32. */
  function Madd16(a: seq<int>, b: seq<int>): (r: seq<int>)
    requires |a| == |b| && |a| % 2 == 0
    ensures |r| == |a| / 2
  {
    seq(|a| / 2, (k: nat) requires k < |a| / 2 => Wrap32(Pair(a, b, k)))
  }

  /** A lane whose products stay in range is exact. */
  lemma MaddLane(a: seq<int>, b: seq<int>, i: nat, x0: int, y0: int, x1: int, y1: int)
    requires |a| == |b| && |a| % 2 == 0 && i < |a| / 2
    requires a[2 * i] == x0 && a[2 * i + 1] == x1 && b[2 * i] == y0 && b[2 * i + 1] == y1
    requires Fits32(x0 * y0 + x1 * y1)
    ensures Madd16(a, b)[i] == x0 * y0 + x1 * y1
  {
    NoWrap(x0 * y0 + x1 * y1);
  }

  function Add16(a: seq<int>, b: seq<int>): (r: seq<int>)
    requires |a| == |b|
    ensures |r| == |a|
  {
    seq(|a|, (k: nat) requires k < |a| => Wrap16(a[k] + b[k]))
  }

  function Add32(a: seq<int>, b: seq<int>): (r: seq<int>)
    requires |a| == |b|
    ensures |r| == |a|
  {
    seq(|a|, (k: nat) requires k < |a| => Wrap32(a[k] + b[k]))
  }

  /** `hadd_epi16` of two halves: neighbours added. */
  function Hadd16(lo: seq<int>, hi: seq<int>): (r: seq<int>)
    requires |lo| == 8 && |hi| == 8
    ensures |r| == 8
  {
    seq(8, (k: nat) requires k < 8 =>
      if k < 4 then Wrap16(lo[2 * k] + lo[2 * k + 1]) else Wrap16(hi[2 * k - 8] + hi[2 * k - 7]))
  }

  /** Two bits of an immediate. */
  function Pick(imm: nat, l: nat): nat {
    if l == 0 then imm % 4 else if l == 1 then imm / 4 % 4 else if l == 2 then imm / 16 % 4 else imm / 64 % 4
  }

  function Bit(imm: nat, l: nat): nat {
    if l == 0 then imm % 2 else if l == 1 then imm / 2 % 2 else if l == 2 then imm / 4 % 2 else if l == 3 then imm / 8 % 2
    else if l == 4 then imm / 16 % 2 else if l == 5 then imm / 32 % 2 else if l == 6 then imm / 64 % 2 else imm / 128 % 2
  }

  /** Byte `i` of `shuffle_epi32(v, imm)` comes from here: dwords move within each
      half of sixteen bytes. */
  function ShuffleFrom(imm: nat, i: nat): nat { 16 * (i / 16) + 4 * Pick(imm, i % 16 / 4) + i % 4 }

  function ShuffleDwords<T>(v: seq<T>, imm: nat): (r: seq<T>)
    requires |v| % 16 == 0
    ensures |r| == |v|
  {
    seq(|v|, (i: nat) requires i < |v| => v[ShuffleFrom(imm, i)])
  }

  /** `blend_epi32`: dword `l` from `b` where bit `l` of the immediate is set. */
  function BlendDwords<T>(a: seq<T>, b: seq<T>, imm: nat): (r: seq<T>)
    requires |a| == |b| == 32
    ensures |r| == 32
  {
    seq(32, (i: nat) requires i < 32 => if Bit(imm, i / 4) == 1 then b[i] else a[i])
  }

  /** `shuffle_epi8` by a table of byte indices. */
  function ShuffleBytes<T>(v: seq<T>, table: seq<nat>): (r: seq<T>)
    requires forall i | 0 <= i < |table| :: table[i] < |v|
    ensures |r| == |table|
  {
    seq(|table|, (i: nat) requires i < |table| => v[table[i]])
  }

  /** `unpacklo_epi8`: the low eight bytes of each, interleaved. */
  function UnpackLow<T>(a: seq<T>, b: seq<T>): (r: seq<T>)
    requires |a| == 16 && |b| == 16
    ensures |r| == 16
  {
    seq(16, (i: nat) requires i < 16 => if i % 2 == 0 then a[i / 2] else b[i / 2])
  }

  // ----- nibbles -----

  function Word16(lo: bv8, hi: bv8): bv16 { (lo as bv16) | ((hi as bv16) << 8) }

  function LowByte(w: bv16): bv8 { ((w >> 4) & 0xFF) as bv8 }
  function HighByte(w: bv16): bv8 { ((w >> 12) & 0xFF) as bv8 }
  function Masked(b: bv8): int { (b & 15) as int }

  /** `srli_epi16(v, 4)`: the shift crosses the bytes of each 16-bit lane. */
  function Srli4(v: seq<bv8>): (r: seq<bv8>)
    requires |v| % 2 == 0
    ensures |r| == |v|
  {
    seq(|v|, (i: nat) requires i < |v| =>
      if i % 2 == 0 then LowByte(Word16(v[i], v[i + 1])) else HighByte(Word16(v[i - 1], v[i])))
  }

  function And15(v: seq<bv8>): (r: seq<int>)
    ensures |r| == |v|
  {
    seq(|v|, (i: nat) requires i < |v| => Masked(v[i]))
  }

  lemma ShiftedNibbles(lo: bv8, hi: bv8)
    ensures LowByte(Word16(lo, hi)) & 15 == lo >> 4
    ensures HighByte(Word16(lo, hi)) & 15 == hi >> 4
  {
  }

  /** Masked after the shift, each byte is its own high nibble. */
  lemma HighNibble(v: seq<bv8>, i: nat)
    requires |v| % 2 == 0 && i < |v|
    ensures And15(Srli4(v))[i] == (v[i] >> 4) as int
  {
    if i % 2 == 0 {
      ShiftedNibbles(v[i], v[i + 1]);
    } else {
      ShiftedNibbles(v[i - 1], v[i]);
    }
  }

  // ----- the dword patterns the kernel uses -----

  lemma PickSplat(j: nat, l: nat)
    requires j < 4
    ensures Pick(85 * j, l) == j
  {
    assert j == 0 || j == 1 || j == 2 || j == 3;
  }

  /** Immediates 0, 85, 170 and 255 broadcast dword `j` of each half. */
  lemma Broadcast<T>(v: seq<T>, j: nat, d: nat, t: nat)
    requires |v| == 16 && j < 4 && d < 8 && t < 4
    ensures ShuffleDwords(v + v, 85 * j)[4 * d + t] == v[4 * j + t]
  {
    var i := 4 * d + t;
    PickSplat(j, i % 16 / 4);
    assert ShuffleFrom(85 * j, i) == 16 * (i / 16) + 4 * j + t;
  }

  /** Interleaving the dwords of two registers: even dwords of the result come from
      `a`, odd ones from `b`, the first or the second dword of each pair. */
  function Interleave<T>(a: seq<T>, b: seq<T>, e: nat): (r: seq<T>)
    requires |a| == |b| == 32
    ensures |r| == 32
  {
    if e == 0 then BlendDwords(a, ShuffleDwords(b, 177), 170) else BlendDwords(ShuffleDwords(a, 177), b, 170)
  }

  lemma InterleaveAt<T>(a: seq<T>, b: seq<T>, e: nat, d: nat, t: nat)
    requires |a| == |b| == 32 && e < 2 && d < 8 && t < 4
    ensures Interleave(a, b, e)[4 * d + t] == (if d % 2 == 0 then a else b)[8 * (d / 2) + 4 * e + t]
  {
    var i := 4 * d + t;
    assert i / 4 == d && Bit(170, d) == d % 2;
    assert i % 16 / 4 == d % 4 && Pick(177, d % 4) == (if d % 2 == 0 then d % 4 + 1 else d % 4 - 1);
    assert ShuffleFrom(177, i) == if d % 2 == 0 then i + 4 else i - 4;
  }

  ghost predicate Interleaved<T>(r: seq<T>, a: seq<T>, b: seq<T>, e: nat) {
    |r| == |a| == |b| == 32 && e < 2 && forall d: nat, t: nat | d < 8 && t < 4 :: FromPair(r, a, b, e, d, t)
  }

  /** Dword `d` of `r` is dword `e` of pair `d / 2` of one of the two. */
  predicate FromPair<T(==)>(r: seq<T>, a: seq<T>, b: seq<T>, e: nat, d: nat, t: nat)
    requires |r| == |a| == |b| == 32 && e < 2 && d < 8 && t < 4
  {
    r[4 * d + t] == (if d % 2 == 0 then a else b)[8 * (d / 2) + 4 * e + t]
  }

  lemma InterleaveIs<T>(a: seq<T>, b: seq<T>, e: nat)
    requires |a| == |b| == 32 && e < 2
    ensures Interleaved(Interleave(a, b, e), a, b, e)
  {
    var r := Interleave(a, b, e);
    forall d: nat, t: nat | d < 8 && t < 4 ensures FromPair(r, a, b, e, d, t) {
      InterleaveAt(a, b, e, d, t);
    }
  }
}
