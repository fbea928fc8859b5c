/** The panel GEMV against the row kernel: the same integers from either layout. */
module Q4KGemv {
  import opened Q4KBlock
  import opened Q4KPanel
  import opened Simd

  /** Column order of the interleaved lanes: 0, 4, 1, 5, 2, 6, 3, 7. */
  function Order(d: nat): nat { if d % 2 == 0 then d / 2 else 4 + d / 2 }

  const SCALE_MASK: seq<nat> := [0, 0, 4, 4, 1, 1, 5, 5, 2, 2, 6, 6, 3, 3, 7, 7]
  const DELTA_MASK: seq<nat> := [0, 1, 8, 9, 2, 3, 10, 11, 4, 5, 12, 13, 6, 7, 14, 15]
  const FINAL_PERMUTE: seq<nat> := [0, 2, 4, 6, 1, 3, 5, 7]

  /** The final permutation undoes the interleaving. */
  lemma FinalUndoes(c: nat)
    requires c < 8
    ensures FINAL_PERMUTE[c] < 8 && Order(FINAL_PERMUTE[c]) == c
  {
  }

  lemma ScaleLane(d: nat, h: nat)
    requires d < 8 && h < 2
    ensures SCALE_MASK[2 * d + h] == Order(d)
  {
  }

  lemma DeltaLane(d: nat, h: nat)
    requires d < 8 && h < 2
    ensures DELTA_MASK[2 * d + h] == 2 * Order(d) + h
  {
  }

  // ----- one sub-block of 32 weights -----

  /** Product `i` of group `g` of one column. */
  function Prod(block: Bytes, qs: seq<int>, g: nat, i: nat): int
    requires IsBlock(block) && |qs| == 256 && g < 8 && i < 32
  {
    Quant(block, g, i) * qs[32 * g + i]
  }

  /** What int16 lane `h` of a column holds after `m` of the eight `maddubs`. */
  function LaneSum(block: Bytes, qs: seq<int>, g: nat, h: nat, m: nat): int
    requires IsBlock(block) && |qs| == 256 && g < 8 && h < 2 && m <= 8
  {
    if m == 0 then 0
    else LaneSum(block, qs, g, h, m - 1) + LanePair(block, qs, g, h, m - 1)
  }

  function LanePair(block: Bytes, qs: seq<int>, g: nat, h: nat, m: nat): int
    requires IsBlock(block) && |qs| == 256 && g < 8 && h < 2 && m < 8
  {
    Prod(block, qs, g, 4 * m + 2 * h) + Prod(block, qs, g, 4 * m + 2 * h + 1)
  }

  ghost predicate Int8(qs: seq<int>) { |qs| == 256 && forall i | 0 <= i < 256 :: -128 <= qs[i] <= 127 }

  lemma PairBound(block: Bytes, qs: seq<int>, g: nat, h: nat, m: nat)
    requires IsBlock(block) && Int8(qs) && g < 8 && h < 2 && m < 8
    ensures -3840 <= LanePair(block, qs, g, h, m) <= 3840
  {
    var i := 4 * m + 2 * h;
    ProductBound(Quant(block, g, i), qs[32 * g + i]);
    ProductBound(Quant(block, g, i + 1), qs[32 * g + i + 1]);
  }

  /** The int16 accumulator never leaves its range: 8 pairs of at most 2 * 15 * 128. */
  lemma {:induction false} LaneBound(block: Bytes, qs: seq<int>, g: nat, h: nat, m: nat)
    requires IsBlock(block) && Int8(qs) && g < 8 && h < 2 && m <= 8
    ensures -3840 * m <= LaneSum(block, qs, g, h, m) <= 3840 * m && Fits16(LaneSum(block, qs, g, h, m))
  {
    if m > 0 {
      LaneBound(block, qs, g, h, m - 1);
      PairBound(block, qs, g, h, m - 1);
    }
  }

  lemma FourProducts(block: Bytes, qs: seq<int>, g: nat, n: nat)
    requires IsBlock(block) && |qs| == 256 && g < 8 && n + 4 <= 32
    ensures GroupDot(block, qs, g, n + 4) == GroupDot(block, qs, g, n)
              + Prod(block, qs, g, n) + Prod(block, qs, g, n + 1) + Prod(block, qs, g, n + 2) + Prod(block, qs, g, n + 3)
  {
    assert GroupDot(block, qs, g, n + 1) == GroupDot(block, qs, g, n) + Prod(block, qs, g, n);
    assert GroupDot(block, qs, g, n + 2) == GroupDot(block, qs, g, n + 1) + Prod(block, qs, g, n + 1);
    assert GroupDot(block, qs, g, n + 3) == GroupDot(block, qs, g, n + 2) + Prod(block, qs, g, n + 2);
  }

  /** The two lanes of a column together hold its whole group. */
  lemma {:induction false} LanesAreGroup(block: Bytes, qs: seq<int>, g: nat, m: nat)
    requires IsBlock(block) && |qs| == 256 && g < 8 && m <= 8
    ensures LaneSum(block, qs, g, 0, m) + LaneSum(block, qs, g, 1, m) == GroupDot(block, qs, g, 4 * m)
  {
    if m > 0 {
      LanesAreGroup(block, qs, g, m - 1);
      FourProducts(block, qs, g, 4 * m - 4);
    }
  }

  /** Byte `j` of chunk `k` of run `sb`, for one column. */
  lemma ChunkByte(qs: Bytes, cols: seq<Bytes>, sb: nat, k: nat, c: nat, j: nat)
    requires Columns(cols) && QuantsOf(qs, cols) && sb < 4 && k < 4 && c < 8 && j < 8
    ensures qs[256 * sb + 64 * k + 8 * c + j] == cols[c][QS_AT + 32 * sb + 8 * k + j]
  {
    var x := 256 * sb + 64 * k + 8 * c + j;
    assert x / 8 == 32 * sb + 8 * k + c && x / 64 == 4 * sb + k && x % 8 == j;
    assert qs[x] == QuantByte(cols, x);
  }

  /** The nibbles of one loaded register: low for the first group of the run, high for
      the second. */
  function Nibbles(raw: Bytes, high: nat): (v: seq<int>)
    requires |raw| % 2 == 0
    ensures |v| == |raw|
  {
    if high == 0 then And15(raw) else And15(Srli4(raw))
  }

  lemma NibblesAt(raw: Bytes, high: nat, i: nat)
    requires |raw| % 2 == 0 && i < |raw| && high < 2
    ensures Nibbles(raw, high)[i] == Nibble(raw[i], high)
  {
    if high == 1 { HighNibble(raw, i); }
  }

  /** Register `half` (columns 0-3 or 4-7) of chunk `k`. */
  function Raw(qs: Bytes, sb: nat, k: nat, half: nat): (raw: Bytes)
    requires |qs| == 1024 && sb < 4 && k < 4 && half < 2
    ensures |raw| == 32
  {
    qs[sb * 256 + 64 * k + 32 * half..sb * 256 + 64 * k + 32 * half + 32]
  }

  lemma RawByte(qs: Bytes, cols: seq<Bytes>, sb: nat, k: nat, half: nat, c: nat, j: nat)
    requires Columns(cols) && QuantsOf(qs, cols) && sb < 4 && k < 4 && half < 2 && c < 4 && j < 8
    ensures Raw(qs, sb, k, half)[8 * c + j] == cols[4 * half + c][QS_AT + 32 * sb + 8 * k + j]
  {
    ChunkByte(qs, cols, sb, k, 4 * half + c, j);
  }

  /** Byte `t` of dword `d` is weight `4 * m + t` of group `g` of column `Order(d)`. */
  ghost predicate WeightsAre(u: seq<int>, cols: seq<Bytes>, g: nat, m: nat)
    requires Columns(cols) && g < 8 && m < 8
  {
    |u| == 32 && forall d: nat, t: nat | d < 8 && t < 4 :: WeightIs(u, cols, g, m, d, t)
  }

  ghost predicate WeightIs(u: seq<int>, cols: seq<Bytes>, g: nat, m: nat, d: nat, t: nat)
    requires Columns(cols) && g < 8 && m < 8 && d < 8 && t < 4 && |u| == 32
  {
    u[4 * d + t] == Quant(cols[Order(d)], g, 4 * m + t)
  }

  lemma QuantByRun(block: Bytes, sb: nat, high: nat, i: nat)
    requires IsBlock(block) && sb < 4 && high < 2 && i < 32
    ensures Quant(block, 2 * sb + high, i) == Nibble(block[QS_AT + 32 * sb + i], high)
  {
    assert (2 * sb + high) / 2 == sb && (2 * sb + high) % 2 == high;
  }

  /** A register of nibbles of chunk `k` of run `sb` of four columns, eight to a
      column. */
  ghost predicate NibblesHold(v: seq<int>, cols: seq<Bytes>, g: nat, k: nat, half: nat)
    requires Columns(cols) && g < 8 && k < 4 && half < 2
  {
    |v| == 32 && forall c: nat, j: nat | c < 4 && j < 8 :: NibbleIs(v, cols, g, k, half, c, j)
  }

  ghost predicate NibbleIs(v: seq<int>, cols: seq<Bytes>, g: nat, k: nat, half: nat, c: nat, j: nat)
    requires Columns(cols) && g < 8 && k < 4 && half < 2 && c < 4 && j < 8 && |v| == 32
  {
    v[8 * c + j] == Quant(cols[4 * half + c], g, 8 * k + j)
  }

  lemma NibblesOf(raw: Bytes, cols: seq<Bytes>, sb: nat, high: nat, k: nat, half: nat, g: nat)
    requires Columns(cols) && sb < 4 && high < 2 && k < 4 && half < 2 && |raw| == 32 && RawHolds(raw, cols, sb, k, half)
    requires g == 2 * sb + high
    ensures NibblesHold(Nibbles(raw, high), cols, g, k, half)
  {
    var v := Nibbles(raw, high);
    forall c: nat, j: nat | c < 4 && j < 8 ensures NibbleIs(v, cols, g, k, half, c, j) {
      assert RawIs(raw, cols, sb, k, half, c, j);
      NibblesAt(raw, high, 8 * c + j);
      QuantByRun(cols[4 * half + c], sb, high, 8 * k + j);
    }
  }

  lemma WeightByte(a: seq<int>, b: seq<int>, u: seq<int>, cols: seq<Bytes>, g: nat, k: nat, e: nat, d: nat, t: nat)
    requires Columns(cols) && g < 8 && k < 4 && d < 8 && t < 4 && Interleaved(u, a, b, e)
    requires NibblesHold(a, cols, g, k, 0) && NibblesHold(b, cols, g, k, 1)
    ensures WeightIs(u, cols, g, 2 * k + e, d, t)
  {
    assert FromPair(u, a, b, e, d, t);
    if d % 2 == 0 {
      assert NibbleIs(a, cols, g, k, 0, d / 2, 4 * e + t);
    } else {
      assert NibbleIs(b, cols, g, k, 1, d / 2, 4 * e + t);
    }
  }

  /** The register holds chunk `k` of run `sb` of four columns. */
  ghost predicate RawHolds(raw: Bytes, cols: seq<Bytes>, sb: nat, k: nat, half: nat)
    requires Columns(cols) && sb < 4 && k < 4 && half < 2 && |raw| == 32
  {
    forall c: nat, j: nat | c < 4 && j < 8 :: RawIs(raw, cols, sb, k, half, c, j)
  }

  ghost predicate RawIs(raw: Bytes, cols: seq<Bytes>, sb: nat, k: nat, half: nat, c: nat, j: nat)
    requires Columns(cols) && sb < 4 && k < 4 && half < 2 && c < 4 && j < 8 && |raw| == 32
  {
    raw[8 * c + j] == cols[4 * half + c][QS_AT + 32 * sb + 8 * k + j]
  }

  lemma RawOf(qs: Bytes, cols: seq<Bytes>, sb: nat, k: nat, half: nat)
    requires Columns(cols) && QuantsOf(qs, cols) && sb < 4 && k < 4 && half < 2
    ensures RawHolds(Raw(qs, sb, k, half), cols, sb, k, half)
  {
    forall c: nat, j: nat | c < 4 && j < 8 ensures RawIs(Raw(qs, sb, k, half), cols, sb, k, half, c, j) {
      RawByte(qs, cols, sb, k, half, c, j);
    }
  }

  lemma Weights(a: seq<int>, b: seq<int>, u: seq<int>, cols: seq<Bytes>, g: nat, k: nat, e: nat, m: nat)
    requires Columns(cols) && g < 8 && k < 4 && Interleaved(u, a, b, e) && m == 2 * k + e
    requires NibblesHold(a, cols, g, k, 0) && NibblesHold(b, cols, g, k, 1)
    ensures WeightsAre(u, cols, g, m)
  {
    forall d: nat, t: nat | d < 8 && t < 4 ensures WeightIs(u, cols, g, m, d, t) {
      WeightByte(a, b, u, cols, g, k, e, d, t);
    }
  }

  /** Sixteen activations, the operand of two chunks. */
  function Lhs(qs: seq<int>, sb: nat, high: nat, k: nat): (v: seq<int>)
    requires |qs| == 256 && sb < 4 && high < 2 && k < 4
    ensures |v| == 16
  {
    qs[sb * 64 + 32 * high + 16 * (k / 2)..sb * 64 + 32 * high + 16 * (k / 2) + 16]
  }

  /** Byte `t` of every dword is activation `4 * m + t` of group `g`. */
  ghost predicate ActsAre(s: seq<int>, qs: seq<int>, g: nat, m: nat)
    requires |qs| == 256 && g < 8 && m < 8
  {
    |s| == 32 && forall d: nat, t: nat | d < 8 && t < 4 :: ActIs(s, qs, g, m, d, t)
  }

  ghost predicate ActIs(s: seq<int>, qs: seq<int>, g: nat, m: nat, d: nat, t: nat)
    requires |qs| == 256 && g < 8 && m < 8 && d < 8 && t < 4 && |s| == 32
  {
    s[4 * d + t] == qs[32 * g + 4 * m + t]
  }

  lemma LhsByte(qs: seq<int>, sb: nat, high: nat, k: nat, e: nat, t: nat)
    requires |qs| == 256 && sb < 4 && high < 2 && k < 4 && e < 2 && t < 4
    ensures Lhs(qs, sb, high, k)[4 * (2 * (k % 2) + e) + t] == qs[32 * (2 * sb + high) + 4 * (2 * k + e) + t]
  {
    assert 16 * (k / 2) + 8 * (k % 2) == 8 * k;
  }

  lemma Acts(lhs: seq<int>, qs: seq<int>, sb: nat, high: nat, k: nat, e: nat, g: nat, m: nat)
    requires |qs| == 256 && sb < 4 && high < 2 && k < 4 && e < 2 && lhs == Lhs(qs, sb, high, k)
    requires g == 2 * sb + high && m == 2 * k + e
    ensures ActsAre(ShuffleDwords(lhs + lhs, 85 * (2 * (k % 2) + e)), qs, g, m)
  {
    var j := 2 * (k % 2) + e;
    var s := ShuffleDwords(lhs + lhs, 85 * j);
    forall d: nat, t: nat | d < 8 && t < 4 ensures ActIs(s, qs, g, m, d, t) {
      Broadcast(lhs, j, d, t);
      LhsByte(qs, sb, high, k, e, t);
    }
  }

  /** Lane `2 * d + h` holds what column `Order(d)` has summed so far. */
  ghost predicate LanesHold(iacc: seq<int>, cols: seq<Bytes>, qs: seq<int>, g: nat, m: nat)
    requires Columns(cols) && |qs| == 256 && g < 8 && m <= 8
  {
    |iacc| == 16 && forall d: nat, h: nat | d < 8 && h < 2 :: LaneHolds(iacc, cols, qs, g, m, d, h)
  }

  ghost predicate LaneHolds(iacc: seq<int>, cols: seq<Bytes>, qs: seq<int>, g: nat, m: nat, d: nat, h: nat)
    requires Columns(cols) && |qs| == 256 && g < 8 && m <= 8 && |iacc| == 16 && d < 8 && h < 2
  {
    iacc[2 * d + h] == LaneSum(cols[Order(d)], qs, g, h, m)
  }

  /** One `maddubs` lane, which cannot saturate. */
  lemma MaddubsLane(u: seq<int>, s: seq<int>, i: nat, q0: int, a0: int, q1: int, a1: int)
    requires |u| == |s| == 32 && i < 16
    requires u[2 * i] == q0 && s[2 * i] == a0 && u[2 * i + 1] == q1 && s[2 * i + 1] == a1
    ensures Fits16(q0 * a0 + q1 * a1) ==> Maddubs(u, s)[i] == q0 * a0 + q1 * a1
  {
    NoWrap(q0 * a0 + q1 * a1);
  }

  lemma StepLane(u: seq<int>, s: seq<int>, cols: seq<Bytes>, qs: seq<int>, g: nat, m: nat, d: nat, h: nat)
    requires Columns(cols) && Int8(qs) && g < 8 && m < 8 && d < 8 && h < 2
    requires WeightsAre(u, cols, g, m) && ActsAre(s, qs, g, m)
    ensures Maddubs(u, s)[2 * d + h] == LanePair(cols[Order(d)], qs, g, h, m)
  {
    var block, i := cols[Order(d)], 4 * m + 2 * h;
    assert WeightIs(u, cols, g, m, d, 2 * h) && WeightIs(u, cols, g, m, d, 2 * h + 1);
    assert ActIs(s, qs, g, m, d, 2 * h) && ActIs(s, qs, g, m, d, 2 * h + 1);
    PairBound(block, qs, g, h, m);
    MaddubsLane(u, s, 2 * d + h, Quant(block, g, i), qs[32 * g + i], Quant(block, g, i + 1), qs[32 * g + i + 1]);
  }

  lemma AddLane(iacc: seq<int>, u: seq<int>, s: seq<int>, cols: seq<Bytes>, qs: seq<int>, g: nat, m: nat, m': nat)
    requires Columns(cols) && Int8(qs) && g < 8 && m < 8 && m' == m + 1
    requires WeightsAre(u, cols, g, m) && ActsAre(s, qs, g, m) && LanesHold(iacc, cols, qs, g, m)
    ensures LanesHold(Add16(iacc, Maddubs(u, s)), cols, qs, g, m')
  {
    var r := Add16(iacc, Maddubs(u, s));
    forall d: nat, h: nat | d < 8 && h < 2 ensures LaneHolds(r, cols, qs, g, m', d, h) {
      assert LaneHolds(iacc, cols, qs, g, m, d, h);
      StepLane(u, s, cols, qs, g, m, d, h);
      LaneBound(cols[Order(d)], qs, g, h, m');
      NoWrap(LaneSum(cols[Order(d)], qs, g, h, m'));
    }
  }

  /** The two registers of one unrolled step. */
  method StepOperands(pq: Bytes, ghost cols: seq<Bytes>, qs: seq<int>, sb: nat, high: nat, k: nat, e: nat,
                      ghost g: nat, ghost m: nat) returns (u: seq<int>, s: seq<int>)
    requires Columns(cols) && QuantsOf(pq, cols) && Int8(qs) && sb < 4 && high < 2 && k < 4 && e < 2
    requires g == 2 * sb + high && m == 2 * k + e
    ensures WeightsAre(u, cols, g, m) && ActsAre(s, qs, g, m)
  {
    var lhs := Lhs(qs, sb, high, k);
    var a, b := Nibbles(Raw(pq, sb, k, 0), high), Nibbles(Raw(pq, sb, k, 1), high);
    HalfNibbles(pq, cols, sb, high, k, 0, g);
    HalfNibbles(pq, cols, sb, high, k, 1, g);
    StepWeights(a, b, cols, g, k, e, m);
    Acts(lhs, qs, sb, high, k, e, g, m);
    u := Interleave(a, b, e);
    s := ShuffleDwords(lhs + lhs, 85 * (2 * (k % 2) + e));
  }

  /** One of the eight unrolled steps. */
  method Step(iacc: seq<int>, pq: Bytes, ghost cols: seq<Bytes>, qs: seq<int>, sb: nat, high: nat, k: nat, e: nat,
              ghost g: nat, ghost m: nat)
    returns (r: seq<int>)
    requires Columns(cols) && QuantsOf(pq, cols) && Int8(qs) && sb < 4 && high < 2 && k < 4 && e < 2
    requires g == 2 * sb + high && m == 2 * k + e && LanesHold(iacc, cols, qs, g, m)
    ensures LanesHold(r, cols, qs, g, m + 1)
  {
    var u, s := StepOperands(pq, cols, qs, sb, high, k, e, g, m);
    AddLane(iacc, u, s, cols, qs, g, m, m + 1);
    r := Add16(iacc, Maddubs(u, s));
  }

  /** The nibbles of one register of chunk `k`. */
  lemma HalfNibbles(pq: Bytes, cols: seq<Bytes>, sb: nat, high: nat, k: nat, half: nat, g: nat)
    requires Columns(cols) && QuantsOf(pq, cols) && sb < 4 && high < 2 && k < 4 && half < 2 && g == 2 * sb + high
    ensures NibblesHold(Nibbles(Raw(pq, sb, k, half), high), cols, g, k, half)
  {
    RawOf(pq, cols, sb, k, half);
    NibblesOf(Raw(pq, sb, k, half), cols, sb, high, k, half, g);
  }

  lemma StepWeights(a: seq<int>, b: seq<int>, cols: seq<Bytes>, g: nat, k: nat, e: nat, m: nat)
    requires Columns(cols) && g < 8 && k < 4 && e < 2 && m == 2 * k + e
    requires NibblesHold(a, cols, g, k, 0) && NibblesHold(b, cols, g, k, 1)
    ensures WeightsAre(Interleave(a, b, e), cols, g, m)
  {
    InterleaveIs(a, b, e);
    Weights(a, b, Interleave(a, b, e), cols, g, k, e, m);
  }

  /** The eight `maddubs` of one sub-block, accumulated in int16. */
  method SubBlock(pq: Bytes, ghost cols: seq<Bytes>, qs: seq<int>, sb: nat, high: nat) returns (iacc: seq<int>)
    requires Columns(cols) && QuantsOf(pq, cols) && Int8(qs) && sb < 4 && high < 2
    ensures LanesHold(iacc, cols, qs, 2 * sb + high, 8)
  {
    iacc := seq(16, _ => 0);
    ghost var g: nat, m: nat := 2 * sb + high, 0;
    for k := 0 to 4
      invariant m == 2 * k && LanesHold(iacc, cols, qs, g, m)
    {
      iacc := Step(iacc, pq, cols, qs, sb, high, k, 0, g, m);
      iacc := Step(iacc, pq, cols, qs, sb, high, k, 1, g, m + 1);
      m := m + 2;
    }
  }
}
