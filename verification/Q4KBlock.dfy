/** The 144-byte q4_K block and the int8 activation block it is multiplied with:
    what the bytes mean, and the exact integers one block contributes. */
module Q4KBlock {

  const BLOCK_BYTES := 144
  const SCALES_AT := 4
  const QS_AT := 16

  type Bytes = seq<bv8>

  // ----- words -----

  /** Four bytes read as a little-endian word. */
  function Word(b0: bv8, b1: bv8, b2: bv8, b3: bv8): bv32 {
    (b0 as bv32) | ((b1 as bv32) << 8) | ((b2 as bv32) << 16) | ((b3 as bv32) << 24)
  }

  function Split(w: bv32): Bytes {
    [(w & 0xFF) as bv8, ((w >> 8) & 0xFF) as bv8, ((w >> 16) & 0xFF) as bv8, ((w >> 24) & 0xFF) as bv8]
  }

  const MASK6: bv32 := 0x3f3f3f3f
  const MASK4: bv32 := 0x0f0f0f0f
  const MASK2: bv32 := 0x03030303

  function Keep6(w: bv32): bv32 { w & MASK6 }
  function LowWord(c: bv32, a: bv32): bv32 { (c & MASK4) | (((a >> 6) & MASK2) << 4) }
  function HighWord(c: bv32, b: bv32): bv32 { ((c >> 4) & MASK4) | (((b >> 6) & MASK2) << 4) }

  /** `unpack_scale_min_k4`: twelve packed bytes into eight scales and eight minima,
      a word at a time. */
  method Unpack(sc: Bytes) returns (bytes: Bytes)
    requires |sc| == 12
    ensures bytes == Unpacked(sc)
  {
    var w0, w1, w2 := Word(sc[0], sc[1], sc[2], sc[3]), Word(sc[4], sc[5], sc[6], sc[7]), Word(sc[8], sc[9], sc[10], sc[11]);
    var w3 := HighWord(w2, w1);
    var aux := Keep6(w1);
    w1 := LowWord(w2, w0);
    w2 := aux;
    w0 := Keep6(w0);
    bytes := Split(w0) + Split(w1) + Split(w2) + Split(w3);
    KeepBytes(sc[0], sc[1], sc[2], sc[3]);
    KeepBytes(sc[4], sc[5], sc[6], sc[7]);
    LowBytes(sc[8], sc[9], sc[10], sc[11], sc[0], sc[1], sc[2], sc[3]);
    HighBytes(sc[8], sc[9], sc[10], sc[11], sc[4], sc[5], sc[6], sc[7]);
    Assemble(sc, Split(w0), Split(w1), Split(w2), Split(w3));
  }

  function Low6(b: bv8): bv8 { b & 63 }

  /** The low nibble of `lo` under the top two bits of `hi`. */
  function Nibble4(lo: bv8, hi: bv8): bv8 { (lo & 15) | ((hi >> 6) << 4) }

  /** The high nibble of `lo` under the top two bits of `hi`. */
  function Nibble4High(lo: bv8, hi: bv8): bv8 { (lo >> 4) | ((hi >> 6) << 4) }

  lemma KeepBytes(a0: bv8, a1: bv8, a2: bv8, a3: bv8)
    ensures Split(Keep6(Word(a0, a1, a2, a3))) == [Low6(a0), Low6(a1), Low6(a2), Low6(a3)]
  {
  }

  lemma LowBytes(c0: bv8, c1: bv8, c2: bv8, c3: bv8, a0: bv8, a1: bv8, a2: bv8, a3: bv8)
    ensures Split(LowWord(Word(c0, c1, c2, c3), Word(a0, a1, a2, a3)))
         == [Nibble4(c0, a0), Nibble4(c1, a1), Nibble4(c2, a2), Nibble4(c3, a3)]
  {
  }

  lemma HighBytes(c0: bv8, c1: bv8, c2: bv8, c3: bv8, b0: bv8, b1: bv8, b2: bv8, b3: bv8)
    ensures Split(HighWord(Word(c0, c1, c2, c3), Word(b0, b1, b2, b3)))
         == [Nibble4High(c0, b0), Nibble4High(c1, b1), Nibble4High(c2, b2), Nibble4High(c3, b3)]
  {
  }

  /** Byte `i` of the twelve, unpacked. */
  function UnpackedByte(sc: Bytes, i: nat): bv8
    requires |sc| == 12 && i < 16
  {
    if i < 4 then Low6(sc[i])
    else if i < 8 then Nibble4(sc[i + 4], sc[i - 4])
    else if i < 12 then Low6(sc[i - 4])
    else Nibble4High(sc[i - 4], sc[i - 8])
  }

  /** The twelve bytes unpacked: byte `g` is scale `g`, byte `8 + g` minimum `g`. */
  function Unpacked(sc: Bytes): (r: Bytes)
    requires |sc| == 12
    ensures |r| == 16
  {
    seq(16, (i: nat) requires i < 16 => UnpackedByte(sc, i))
  }

  lemma Join<T>(p0: seq<T>, p1: seq<T>, p2: seq<T>, p3: seq<T>, r: seq<T>)
    requires |p0| == |p1| == |p2| == |p3| == 4 && |r| == 16
    requires forall k | 0 <= k < 4 :: p0[k] == r[k] && p1[k] == r[4 + k] && p2[k] == r[8 + k] && p3[k] == r[12 + k]
    ensures p0 + p1 + p2 + p3 == r
  {
  }

  lemma Assemble(sc: Bytes, p0: Bytes, p1: Bytes, p2: Bytes, p3: Bytes)
    requires |sc| == 12
    requires p0 == [Low6(sc[0]), Low6(sc[1]), Low6(sc[2]), Low6(sc[3])]
    requires p1 == [Nibble4(sc[8], sc[0]), Nibble4(sc[9], sc[1]), Nibble4(sc[10], sc[2]), Nibble4(sc[11], sc[3])]
    requires p2 == [Low6(sc[4]), Low6(sc[5]), Low6(sc[6]), Low6(sc[7])]
    requires p3 == [Nibble4High(sc[8], sc[4]), Nibble4High(sc[9], sc[5]), Nibble4High(sc[10], sc[6]), Nibble4High(sc[11], sc[7])]
    ensures p0 + p1 + p2 + p3 == Unpacked(sc)
  {
    Join(p0, p1, p2, p3, Unpacked(sc));
  }

  lemma SixBitsOf(lo: bv8, hi: bv8)
    ensures 0 <= Low6(lo) as int <= 63
    ensures 0 <= Nibble4(lo, hi) as int <= 63 && 0 <= Nibble4High(lo, hi) as int <= 63
  {
  }

  lemma SixBits(sc: Bytes, i: nat)
    requires |sc| == 12 && i < 16
    ensures 0 <= Unpacked(sc)[i] as int <= 63
  {
    if i < 4 {
      SixBitsOf(sc[i], 0);
    } else if i < 8 {
      SixBitsOf(sc[i + 4], sc[i - 4]);
    } else if i < 12 {
      SixBitsOf(sc[i - 4], 0);
    } else {
      SixBitsOf(sc[i - 4], sc[i - 8]);
    }
  }

  // ----- what a block means -----

  ghost predicate IsBlock(block: Bytes) { |block| == BLOCK_BYTES }

  function Scales(block: Bytes): (sc: Bytes)
    requires IsBlock(block)
    ensures |sc| == 12
  {
    block[SCALES_AT..QS_AT]
  }

  function Scale(block: Bytes, g: nat): (s: int)
    requires IsBlock(block) && g < 8
    ensures 0 <= s <= 63
  {
    SixBits(Scales(block), g);
    Unpacked(Scales(block))[g] as int
  }

  function Minimum(block: Bytes, g: nat): (s: int)
    requires IsBlock(block) && g < 8
    ensures 0 <= s <= 63
  {
    SixBits(Scales(block), 8 + g);
    Unpacked(Scales(block))[8 + g] as int
  }

  lemma NibbleBounds(b: bv8)
    ensures 0 <= (b & 15) as int <= 15 && 0 <= (b >> 4) as int <= 15
  {
  }

  /** The low or the high nibble of a byte. */
  function Nibble(b: bv8, high: nat): (q: int)
    ensures 0 <= q <= 15
  {
    NibbleBounds(b);
    if high == 0 then (b & 15) as int else (b >> 4) as int
  }

  /** Weight `i` of group `g`: each 32-byte run holds two groups, the even one in the
      low nibbles. */
  function Quant(block: Bytes, g: nat, i: nat): (q: int)
    requires IsBlock(block) && g < 8 && i < 32
    ensures 0 <= q <= 15
  {
    Nibble(block[QS_AT + 32 * (g / 2) + i], g % 2)
  }

  /** An activation block: scale, 256 int8 values, and their sums by sixteens. */
  datatype Act<F> = Act(d: F, qs: seq<int>, bsums: seq<int>)
  {
    ghost predicate Valid() {
      && |qs| == 256 && (forall i | 0 <= i < 256 :: -128 <= qs[i] <= 127)
      && |bsums| == 16 && (forall i: nat | i < 16 :: bsums[i] == SumRun(qs, 16 * i, 16))
    }
  }

  function SumRun(qs: seq<int>, from: nat, n: nat): int
    requires from + n <= |qs|
  {
    if n == 0 then 0 else SumRun(qs, from, n - 1) + qs[from + n - 1]
  }

  lemma {:induction false} SumRunBound(qs: seq<int>, from: nat, n: nat)
    requires from + n <= |qs| && forall i | 0 <= i < |qs| :: -128 <= qs[i] <= 127
    ensures -128 * n <= SumRun(qs, from, n) <= 127 * n
  {
    if n > 0 { SumRunBound(qs, from, n - 1); }
  }

  // ----- the integers one block contributes -----

  /** The products of group `g` below index `n`. */
  function GroupDot(block: Bytes, qs: seq<int>, g: nat, n: nat): int
    requires IsBlock(block) && |qs| == 256 && g < 8 && n <= 32
  {
    if n == 0 then 0
    else GroupDot(block, qs, g, n - 1) + Quant(block, g, n - 1) * qs[32 * g + n - 1]
  }

  /** `sum_g scale_g * sum_i q_i a_i` over the groups below `n`. */
  function BlockDot(block: Bytes, qs: seq<int>, n: nat): int
    requires IsBlock(block) && |qs| == 256 && n <= 8
  {
    if n == 0 then 0 else BlockDot(block, qs, n - 1) + GroupDot(block, qs, n - 1, 32) * Scale(block, n - 1)
  }

  /** `sum_g min_g * sum_i a_i` over the groups below `n`. */
  function BlockMin(block: Bytes, bsums: seq<int>, n: nat): int
    requires IsBlock(block) && |bsums| == 16 && n <= 8
  {
    if n == 0 then 0
    else BlockMin(block, bsums, n - 1) + (bsums[2 * n - 2] + bsums[2 * n - 1]) * Minimum(block, n - 1)
  }

  // ----- bounds: no lane can wrap -----

  lemma ProductBound(q: int, a: int)
    requires 0 <= q <= 15 && -128 <= a <= 127
    ensures -1920 <= q * a <= 1905
  {
    assert q * a >= q * -128 >= -1920 by { assert q * (a + 128) >= 0; }
    assert q * a <= q * 127 <= 1905 by { assert q * (127 - a) >= 0; }
  }

  lemma ScaledBound(s: int, x: int, b: int)
    requires 0 <= s <= 63 && -b <= x <= b
    ensures -63 * b <= x * s <= 63 * b
  {
    assert s * (x + b) >= 0 && s * (b - x) >= 0;
    assert (63 - s) * b >= 0;
  }
}
