/** The 210-byte q6_K block: what its bytes mean, the exact integer it contributes, and
    the same sum regrouped the way the vector lanes hold it. */
module Q6KBlock {
  import opened Q4KBlock
  import opened Q4KColumns

  const Q6K_BYTES := 210
  const HIGH_AT := 128
  const SCALES6_AT := 192
  const D6_AT := 208

  ghost predicate IsBlock6(block: Bytes) { |block| == Q6K_BYTES }

  // ----- what a block means -----

  /** Two bits of the high plane, moved above a nibble. */
  function TwoBits(qh: bv8, sub: nat): bv8 {
    if sub == 0 then (qh & 3) << 4 else if sub == 1 then ((qh >> 2) & 3) << 4
    else if sub == 2 then ((qh >> 4) & 3) << 4 else ((qh >> 6) & 3) << 4
  }

  /** Six bits from a byte of the low plane and a byte of the high plane: runs 0 and 1
      of a half take the low nibble, runs 2 and 3 the high one. */
  function Six(ql: bv8, qh: bv8, sub: nat): bv8 {
    (if sub < 2 then ql & 15 else ql >> 4) | TwoBits(qh, sub)
  }

  lemma SixBound(ql: bv8, qh: bv8, sub: nat)
    ensures 0 <= Value(Six(ql, qh, sub)) <= 63
  {
    assert Six(ql, qh, sub) <= 63;
  }

  /** The raw value of weight `i` of run `sub` of a half. */
  function Weight(block: Bytes, half: nat, sub: nat, i: nat): (q: int)
    requires IsBlock6(block) && half < 2 && sub < 4 && i < 32
    ensures 0 <= q <= 63
  {
    var ql, qh := block[64 * half + 32 * (sub % 2) + i], block[HIGH_AT + 32 * half + i];
    SixBound(ql, qh, sub);
    Value(Six(ql, qh, sub))
  }

  /** Weight `p` of the 256. */
  function Raw6(block: Bytes, p: nat): (q: int)
    requires IsBlock6(block) && p < 256
    ensures 0 <= q <= 63
  {
    Weight(block, p / 128, p % 128 / 32, p % 32)
  }

  function Signed(b: bv8): (r: int)
    ensures -128 <= r <= 127
  {
    if b as int >= 128 then b as int - 256 else b as int
  }

  function Scale6(block: Bytes, g: nat): (s: int)
    requires IsBlock6(block) && g < 16
    ensures -128 <= s <= 127
  {
    Signed(block[SCALES6_AT + g])
  }

  /** A block's 256 raw weights and sixteen scales. */
  datatype Coded = Coded(w: seq<int>, sc: seq<int>)
  {
    ghost predicate Valid() {
      && |w| == 256 && (forall p | 0 <= p < 256 :: 0 <= w[p] <= 63)
      && |sc| == 16 && (forall g | 0 <= g < 16 :: -128 <= sc[g] <= 127)
    }
  }

  function Decoded(block: Bytes): (k: Coded)
    requires IsBlock6(block)
    ensures k.Valid()
  {
    Coded(seq(256, (p: nat) requires p < 256 => Raw6(block, p)), seq(16, (g: nat) requires g < 16 => Scale6(block, g)))
  }

  /** `sum_p scale_p * (q_p - 32) * a_p` over the positions below `n`. */
  function Dot6(k: Coded, qs: seq<int>, n: nat): int
    requires k.Valid() && |qs| == 256 && n <= 256
  {
    if n == 0 then 0
    else Dot6(k, qs, n - 1) + k.sc[(n - 1) / 16] * ((k.w[n - 1] - 32) * qs[n - 1])
  }

  // ----- the same sum the way the lanes hold it -----

  function Term(k: Coded, qs: seq<int>, p: nat): int
    requires k.Valid() && |qs| == 256 && p < 256
  {
    k.w[p] * qs[p]
  }

  /** Two neighbouring products: what one int16 lane of `maddubs` holds. */
  function Pair6(k: Coded, qs: seq<int>, run: nat, e: nat): int
    requires k.Valid() && |qs| == 256 && run < 8 && e < 16
  {
    Term(k, qs, 32 * run + 2 * e) + Term(k, qs, 32 * run + 2 * e + 1)
  }

  function Quad6(k: Coded, qs: seq<int>, run: nat, d: nat): int
    requires k.Valid() && |qs| == 256 && run < 8 && d < 8
  {
    Pair6(k, qs, run, 2 * d) + Pair6(k, qs, run, 2 * d + 1)
  }

  /** Dword `d` of run `run`, scaled: each half of a run has its own scale. */
  function ScaledQuad(k: Coded, qs: seq<int>, run: nat, d: nat): int
    requires k.Valid() && |qs| == 256 && run < 8 && d < 8
  {
    Quad6(k, qs, run, d) * k.sc[2 * run + d / 4]
  }

  /** Dword `d` of the accumulator after the runs below `n`. */
  function RunLane(k: Coded, qs: seq<int>, d: nat, n: nat): int
    requires k.Valid() && |qs| == 256 && d < 8 && n <= 8
  {
    if n == 0 then 0 else RunLane(k, qs, d, n - 1) + ScaledQuad(k, qs, n - 1, d)
  }

  /** Dword `d` of the offset: 32 times two scaled sums of sixteen. */
  function Offset(k: Coded, bsums: seq<int>, d: nat): int
    requires k.Valid() && |bsums| == 16 && d < 8
  {
    32 * (bsums[2 * d] * k.sc[2 * d] + bsums[2 * d + 1] * k.sc[2 * d + 1])
  }

  /** What dword `d` holds when the kernel converts it. */
  function Lane6(k: Coded, qs: seq<int>, bsums: seq<int>, d: nat): int
    requires k.Valid() && |qs| == 256 && |bsums| == 16 && d < 8
  {
    RunLane(k, qs, d, 8) - Offset(k, bsums, d)
  }

  // ----- regrouping -----

  function WeightSum(k: Coded, qs: seq<int>, n: nat): int
    requires k.Valid() && |qs| == 256 && n <= 256
  {
    if n == 0 then 0 else WeightSum(k, qs, n - 1) + k.sc[(n - 1) / 16] * Term(k, qs, n - 1)
  }

  function ActSum(k: Coded, qs: seq<int>, n: nat): int
    requires k.Valid() && |qs| == 256 && n <= 256
  {
    if n == 0 then 0 else ActSum(k, qs, n - 1) + k.sc[(n - 1) / 16] * qs[n - 1]
  }

  lemma Offset32(s: int, q: int, a: int)
    ensures s * ((q - 32) * a) == s * (q * a) - 32 * (s * a)
  {
    assert (q - 32) * a == q * a - 32 * a;
    assert s * (q * a - 32 * a) == s * (q * a) - s * (32 * a);
  }

  /** The offset of 32 can be taken out of the sum. */
  lemma {:induction false} OffsetApart(k: Coded, qs: seq<int>, n: nat)
    requires k.Valid() && |qs| == 256 && n <= 256
    ensures Dot6(k, qs, n) == WeightSum(k, qs, n) - 32 * ActSum(k, qs, n)
  {
    if n > 0 {
      OffsetApart(k, qs, n - 1);
      Offset32(k.sc[(n - 1) / 16], k.w[n - 1], qs[n - 1]);
    }
  }

  lemma FourTerms(s: int, a: int, b: int, c: int, d: int)
    ensures s * a + s * b + s * c + s * d == (a + b + (c + d)) * s
  {
  }

  /** Four positions of one dword share a scale. */
  lemma QuadStep(k: Coded, qs: seq<int>, run: nat, d: nat)
    requires k.Valid() && |qs| == 256 && run < 8 && d < 8
    ensures 32 * run + 4 * d + 4 <= 256
    ensures WeightSum(k, qs, 32 * run + 4 * d + 4) == WeightSum(k, qs, 32 * run + 4 * d) + ScaledQuad(k, qs, run, d)
  {
    var p, g := 32 * run + 4 * d, 2 * run + d / 4;
    assert p / 16 == g && (p + 1) / 16 == g && (p + 2) / 16 == g && (p + 3) / 16 == g;
    var s := k.sc[g];
    assert WeightSum(k, qs, p + 1) == WeightSum(k, qs, p) + s * Term(k, qs, p);
    assert WeightSum(k, qs, p + 2) == WeightSum(k, qs, p + 1) + s * Term(k, qs, p + 1);
    assert WeightSum(k, qs, p + 3) == WeightSum(k, qs, p + 2) + s * Term(k, qs, p + 2);
    assert WeightSum(k, qs, p + 4) == WeightSum(k, qs, p + 3) + s * Term(k, qs, p + 3);
    FourTerms(s, Term(k, qs, p), Term(k, qs, p + 1), Term(k, qs, p + 2), Term(k, qs, p + 3));
  }

  /** The first `m` dwords after `n` runs. */
  function RunLanesTo(k: Coded, qs: seq<int>, m: nat, n: nat): int
    requires k.Valid() && |qs| == 256 && m <= 8 && n <= 8
  {
    if m == 0 then 0 else RunLanesTo(k, qs, m - 1, n) + RunLane(k, qs, m - 1, n)
  }

  lemma {:induction false} OneRun(k: Coded, qs: seq<int>, m: nat, n: nat)
    requires k.Valid() && |qs| == 256 && m <= 8 && n < 8
    ensures 32 * n + 4 * m <= 256
    ensures RunLanesTo(k, qs, m, n + 1) - RunLanesTo(k, qs, m, n)
         == WeightSum(k, qs, 32 * n + 4 * m) - WeightSum(k, qs, 32 * n)
  {
    if m > 0 {
      OneRun(k, qs, m - 1, n);
      QuadStep(k, qs, n, m - 1);
      assert RunLane(k, qs, m - 1, n + 1) == RunLane(k, qs, m - 1, n) + ScaledQuad(k, qs, n, m - 1);
    }
  }

  lemma {:induction false} NoRuns(k: Coded, qs: seq<int>, m: nat)
    requires k.Valid() && |qs| == 256 && m <= 8
    ensures RunLanesTo(k, qs, m, 0) == 0
  {
    if m > 0 { NoRuns(k, qs, m - 1); }
  }

  /** The dwords together hold every weight of the runs done so far. */
  lemma {:induction false} RunsAreSum(k: Coded, qs: seq<int>, n: nat)
    requires k.Valid() && |qs| == 256 && n <= 8
    ensures RunLanesTo(k, qs, 8, n) == WeightSum(k, qs, 32 * n)
  {
    if n == 0 {
      NoRuns(k, qs, 8);
    } else {
      RunsAreSum(k, qs, n - 1);
      OneRun(k, qs, 8, n - 1);
    }
  }

  lemma GroupStep(s: int, a: int, b: int, c: int)
    requires c == a + b
    ensures s * c == s * a + s * b
  {
  }

  /** Part of one group of sixteen activations. */
  lemma {:induction false} ActGroup(k: Coded, qs: seq<int>, g: nat, n: nat)
    requires k.Valid() && |qs| == 256 && g < 16 && n <= 16
    ensures ActSum(k, qs, 16 * g + n) == ActSum(k, qs, 16 * g) + k.sc[g] * SumRun(qs, 16 * g, n)
  {
    if n > 0 {
      ActGroup(k, qs, g, n - 1);
      assert (16 * g + n - 1) / 16 == g;
      GroupStep(k.sc[g], SumRun(qs, 16 * g, n - 1), qs[16 * g + n - 1], SumRun(qs, 16 * g, n));
    }
  }

  function OffsetTo(k: Coded, bsums: seq<int>, m: nat): int
    requires k.Valid() && |bsums| == 16 && m <= 8
  {
    if m == 0 then 0 else OffsetTo(k, bsums, m - 1) + Offset(k, bsums, m - 1)
  }

  lemma {:induction false} OffsetsAreSum<F>(k: Coded, act: Act<F>, m: nat)
    requires k.Valid() && act.Valid() && m <= 8
    ensures OffsetTo(k, act.bsums, m) == 32 * ActSum(k, act.qs, 32 * m)
  {
    if m > 0 {
      OffsetsAreSum(k, act, m - 1);
      var g := 2 * m - 2;
      ActGroup(k, act.qs, g, 16);
      ActGroup(k, act.qs, g + 1, 16);
      assert act.bsums[g] == SumRun(act.qs, 16 * g, 16) && act.bsums[g + 1] == SumRun(act.qs, 16 * (g + 1), 16);
      assert 16 * g + 16 == 16 * (g + 1) && 16 * (g + 1) + 16 == 32 * m && 16 * g == 32 * (m - 1);
    }
  }

  function Lane6To<F>(k: Coded, act: Act<F>, m: nat): int
    requires k.Valid() && |act.qs| == 256 && |act.bsums| == 16 && m <= 8
  {
    if m == 0 then 0 else Lane6To(k, act, m - 1) + Lane6(k, act.qs, act.bsums, m - 1)
  }

  lemma {:induction false} LanesSplit<F>(k: Coded, act: Act<F>, m: nat)
    requires k.Valid() && |act.qs| == 256 && |act.bsums| == 16 && m <= 8
    ensures Lane6To(k, act, m) == RunLanesTo(k, act.qs, m, 8) - OffsetTo(k, act.bsums, m)
  {
    if m > 0 { LanesSplit(k, act, m - 1); }
  }

  /** The eight dwords together are the block's integer, offset included. */
  lemma LanesAreDot6<F>(k: Coded, act: Act<F>)
    requires k.Valid() && act.Valid()
    ensures Lane6To(k, act, 8) == Dot6(k, act.qs, 256)
  {
    LanesSplit(k, act, 8);
    RunsAreSum(k, act.qs, 8);
    OffsetsAreSum(k, act, 8);
    OffsetApart(k, act.qs, 256);
  }
}
