/** The q6_K row kernel: six-bit weights unpacked in vector registers against an int8
    activation block. */
module Q6KRow {
  import opened Q4KBlock
  import opened Simd
  import opened Q4KGemv
  import opened Q4KColumns
  import opened Q4KRow
  import opened Q6KBlock

  // ----- unpacking six bits in vector registers -----

  function Lo(w: bv16): bv8 { (w & 0xFF) as bv8 }
  function Hi(w: bv16): bv8 { (w >> 8) as bv8 }
  function Left4(w: bv16): bv16 { w << 4 }
  function Left2(w: bv16): bv16 { w << 2 }
  function Right2(w: bv16): bv16 { w >> 2 }

  /** A 16-bit shift applied to neighbouring bytes. */
  function Lanes16(v: Bytes, f: bv16 -> bv16): (r: Bytes)
    requires |v| % 2 == 0
    ensures |r| == |v|
  {
    seq(|v|, (i: nat) requires i < |v| =>
      if i % 2 == 0 then Lo(f(Word16(v[i], v[i + 1]))) else Hi(f(Word16(v[i - 1], v[i]))))
  }

  function MaskByte(b: bv8, m: bv8): bv8 { b & m }
  function OrByte(a: bv8, b: bv8): bv8 { a | b }

  function AndBytes(v: Bytes, m: bv8): (r: Bytes)
    ensures |r| == |v|
  {
    seq(|v|, (i: nat) requires i < |v| => MaskByte(v[i], m))
  }

  function OrBytes(a: Bytes, b: Bytes): (r: Bytes)
    requires |a| == |b|
    ensures |r| == |a|
  {
    seq(|a|, (i: nat) requires i < |a| => OrByte(a[i], b[i]))
  }

  /** The high bits of run `r`, four ways: the shifts are the offsets of the runs. */
  function HighBits(qh: Bytes, r: nat): (v: Bytes)
    requires |qh| % 2 == 0
    ensures |v| == |qh|
  {
    if r == 0 then Lanes16(AndBytes(qh, 3), Left4)
    else if r == 1 then Lanes16(AndBytes(qh, 12), Left2)
    else if r == 2 then AndBytes(qh, 48)
    else Lanes16(AndBytes(qh, 192), Right2)
  }

  function LowBits(ql: Bytes, r: nat): (v: Bytes)
    requires |ql| % 2 == 0
    ensures |v| == |ql|
  {
    if r < 2 then AndBytes(ql, 15) else AndBytes(Srli4(ql), 15)
  }

  lemma PairBits0(a: bv8, b: bv8)
    ensures Lo(Left4(Word16(MaskByte(a, 3), MaskByte(b, 3)))) == TwoBits(a, 0)
    ensures Hi(Left4(Word16(MaskByte(a, 3), MaskByte(b, 3)))) == TwoBits(b, 0)
  {
  }

  lemma PairBits1(a: bv8, b: bv8)
    ensures Lo(Left2(Word16(MaskByte(a, 12), MaskByte(b, 12)))) == TwoBits(a, 1)
    ensures Hi(Left2(Word16(MaskByte(a, 12), MaskByte(b, 12)))) == TwoBits(b, 1)
  {
  }

  lemma OneBits2(a: bv8)
    ensures MaskByte(a, 48) == TwoBits(a, 2)
  {
  }

  lemma PairBits3(a: bv8, b: bv8)
    ensures Lo(Right2(Word16(MaskByte(a, 192), MaskByte(b, 192)))) == TwoBits(a, 3)
    ensures Hi(Right2(Word16(MaskByte(a, 192), MaskByte(b, 192)))) == TwoBits(b, 3)
  {
  }

  /** No shift lets a bit cross into the neighbouring byte. */
  lemma HighBitsAt(qh: Bytes, r: nat, i: nat)
    requires |qh| % 2 == 0 && r < 4 && i < |qh|
    ensures HighBits(qh, r)[i] == TwoBits(qh[i], r)
  {
    var a, b := if i % 2 == 0 then qh[i] else qh[i - 1], if i % 2 == 0 then qh[i + 1] else qh[i];
    if r == 0 {
      PairBits0(a, b);
    } else if r == 1 {
      PairBits1(a, b);
    } else if r == 2 {
      OneBits2(qh[i]);
    } else {
      PairBits3(a, b);
    }
  }

  lemma LowBitsAt(ql: Bytes, r: nat, i: nat)
    requires |ql| % 2 == 0 && i < |ql|
    ensures LowBits(ql, r)[i] == if r < 2 then ql[i] & 15 else ql[i] >> 4
  {
    if r >= 2 {
      if i % 2 == 0 {
        ShiftedNibbles(ql[i], ql[i + 1]);
      } else {
        ShiftedNibbles(ql[i - 1], ql[i]);
      }
    }
  }

  /** Thirty-two six-bit weights. */
  function Sixes(ql: Bytes, qh: Bytes, r: nat): (u: seq<int>)
    requires |ql| == |qh| && |ql| % 2 == 0
    ensures |u| == |ql|
  {
    Widen(OrBytes(LowBits(ql, r), HighBits(qh, r)))
  }

  lemma SixesAt(ql: Bytes, qh: Bytes, r: nat, i: nat)
    requires |ql| == |qh| && |ql| % 2 == 0 && r < 4 && i < |ql|
    ensures Sixes(ql, qh, r)[i] == Value(Six(ql[i], qh[i], r))
  {
    HighBitsAt(qh, r, i);
    LowBitsAt(ql, r, i);
  }

  // ----- one run of thirty-two weights -----

  /** Weights of run `run` against its activations. */
  ghost predicate Operands6(u: seq<int>, s: seq<int>, k: Coded, qs: seq<int>, run: nat)
    requires k.Valid() && |qs| == 256 && run < 8
  {
    |u| == |s| == 32 && forall i: nat | i < 32 :: u[i] == k.w[32 * run + i] && s[i] == qs[32 * run + i]
  }

  /** The registers of half `j` hold the weights of its four runs. */
  lemma RunOperands(block: Bytes, qs: seq<int>, j: nat, r: nat)
    requires IsBlock6(block) && |qs| == 256 && j < 2 && r < 4
    ensures Operands6(RunWeights(block, j, r), RunActs(qs, 4 * j + r), Decoded(block), qs, 4 * j + r)
  {
    var run: nat := 4 * j + r;
    var u, s := RunWeights(block, j, r), RunActs(qs, run);
    forall i: nat | i < 32 ensures u[i] == Decoded(block).w[32 * run + i] && s[i] == qs[32 * run + i] {
      SixesAt(QlOf(block, j, r), QhOf(block, j), r, i);
      RawByRun(block, j, r, i, 32 * run + i);
    }
  }

  lemma RawByRun(block: Bytes, j: nat, r: nat, i: nat, p: nat)
    requires IsBlock6(block) && j < 2 && r < 4 && i < 32 && p == 32 * (4 * j + r) + i
    ensures p < 256 && Raw6(block, p) == Weight(block, j, r, i)
    ensures Weight(block, j, r, i) == Value(Six(QlOf(block, j, r)[i], QhOf(block, j)[i], r))
  {
    assert p / 128 == j && p % 128 / 32 == r && p % 32 == i;
  }

  function QlOf(block: Bytes, j: nat, r: nat): (v: Bytes)
    requires IsBlock6(block) && j < 2 && r < 4
    ensures |v| == 32
  {
    block[64 * j + 32 * (r % 2)..64 * j + 32 * (r % 2) + 32]
  }

  function QhOf(block: Bytes, j: nat): (v: Bytes)
    requires IsBlock6(block) && j < 2
    ensures |v| == 32
  {
    block[HIGH_AT + 32 * j..HIGH_AT + 32 * j + 32]
  }

  /** Sixteen bytes widened with their sign. */
  function WidenSigned(v: Bytes): (r: seq<int>)
    ensures |r| == |v|
  {
    seq(|v|, (i: nat) requires i < |v| => Signed(v[i]))
  }

  /** Row `run` of the shuffle table: the run's two scales, eight times each. */
  function ShuffleRow(run: nat): (t: seq<nat>)
    ensures |t| == 16
  {
    seq(16, (k: nat) => 2 * run + k / 8)
  }

  function ScalesOf(block: Bytes): (v: Bytes)
    requires IsBlock6(block)
    ensures |v| == 16
  {
    block[SCALES6_AT..D6_AT]
  }

  function RunScales(block: Bytes, run: nat): (r: seq<int>)
    requires IsBlock6(block) && run < 8
    ensures |r| == 16
  {
    WidenSigned(ShuffleBytes(ScalesOf(block), ShuffleRow(run)))
  }

  /** Lane `e` holds the scale of its half of the run. */
  ghost predicate ScalesOfRun(w: seq<int>, k: Coded, run: nat)
    requires k.Valid() && run < 8
  {
    |w| == 16 && forall e: nat | e < 16 :: w[e] == k.sc[2 * run + e / 8]
  }

  lemma RunScalesAre(block: Bytes, run: nat)
    requires IsBlock6(block) && run < 8
    ensures ScalesOfRun(RunScales(block, run), Decoded(block), run)
  {
    var w := RunScales(block, run);
    forall e: nat | e < 16 ensures w[e] == Decoded(block).sc[2 * run + e / 8] {
      assert ShuffleRow(run)[e] == 2 * run + e / 8;
      assert ScalesOf(block)[2 * run + e / 8] == block[SCALES6_AT + (2 * run + e / 8)];
    }
  }

  lemma Term6Bound(q: int, a: int)
    requires 0 <= q <= 63 && -128 <= a <= 127
    ensures -8064 <= q * a <= 8001
  {
    assert q * (a + 128) >= 0 && q * (127 - a) >= 0;
  }

  lemma Pair6Bound(k: Coded, qs: seq<int>, run: nat, e: nat)
    requires k.Valid() && Int8(qs) && run < 8 && e < 16
    ensures -16128 <= Pair6(k, qs, run, e) <= 16002
  {
    var p := 32 * run + 2 * e;
    Term6Bound(k.w[p], qs[p]);
    Term6Bound(k.w[p + 1], qs[p + 1]);
  }

  lemma PositiveBound(x: int, s: int, b: int)
    requires 0 <= s <= 128 && -b <= x <= b
    ensures -128 * b <= x * s <= 128 * b
  {
    assert s * (x + b) >= 0 && s * (b - x) >= 0;
    assert (128 - s) * b >= 0;
  }

  lemma BothSigns(x: int, s: int)
    ensures x * s == -x * -s
  {
  }

  lemma SignedBound(x: int, s: int, b: int)
    requires -128 <= s <= 128 && -b <= x <= b
    ensures -128 * b <= x * s <= 128 * b
  {
    if s >= 0 {
      PositiveBound(x, s, b);
    } else {
      PositiveBound(-x, -s, b);
      BothSigns(x, s);
    }
  }

  lemma ScaledQuadBound(k: Coded, qs: seq<int>, run: nat, d: nat)
    requires k.Valid() && Int8(qs) && run < 8 && d < 8
    ensures -4128768 <= ScaledQuad(k, qs, run, d) <= 4128768
  {
    Pair6Bound(k, qs, run, 2 * d);
    Pair6Bound(k, qs, run, 2 * d + 1);
    SignedBound(Quad6(k, qs, run, d), k.sc[2 * run + d / 4], 32256);
  }

  lemma {:induction false} RunLaneBound(k: Coded, qs: seq<int>, d: nat, n: nat)
    requires k.Valid() && Int8(qs) && d < 8 && n <= 8
    ensures -4128768 * n <= RunLane(k, qs, d, n) <= 4128768 * n
  {
    if n > 0 {
      RunLaneBound(k, qs, d, n - 1);
      ScaledQuadBound(k, qs, n - 1, d);
    }
  }

  lemma Maddubs6(u: seq<int>, s: seq<int>, k: Coded, qs: seq<int>, run: nat, e: nat)
    requires k.Valid() && Int8(qs) && run < 8 && e < 16 && Operands6(u, s, k, qs, run)
    ensures Maddubs(u, s)[e] == Pair6(k, qs, run, e)
  {
    Pair6Bound(k, qs, run, e);
    MaddubsLane(u, s, e, k.w[32 * run + 2 * e], qs[32 * run + 2 * e],
                k.w[32 * run + 2 * e + 1], qs[32 * run + 2 * e + 1]);
  }

  ghost predicate RunScaled(v: seq<int>, k: Coded, qs: seq<int>, run: nat)
    requires k.Valid() && |qs| == 256 && run < 8
  {
    |v| == 8 && forall d: nat | d < 8 :: v[d] == ScaledQuad(k, qs, run, d)
  }

  lemma RunMadd(w: seq<int>, u: seq<int>, s: seq<int>, k: Coded, qs: seq<int>, run: nat, d: nat)
    requires k.Valid() && Int8(qs) && run < 8 && d < 8 && Operands6(u, s, k, qs, run) && ScalesOfRun(w, k, run)
    ensures Madd16(w, Maddubs(u, s))[d] == ScaledQuad(k, qs, run, d)
  {
    Maddubs6(u, s, k, qs, run, 2 * d);
    Maddubs6(u, s, k, qs, run, 2 * d + 1);
    ScaledQuadBound(k, qs, run, d);
    assert w[2 * d] == k.sc[2 * run + d / 4] && w[2 * d + 1] == k.sc[2 * run + d / 4];
    ScaledLane(w, Maddubs(u, s), d, k.sc[2 * run + d / 4], Pair6(k, qs, run, 2 * d),
               Pair6(k, qs, run, 2 * d + 1), ScaledQuad(k, qs, run, d));
  }

  lemma ScaledLane(w: seq<int>, p: seq<int>, i: nat, s: int, a: int, b: int, q: int)
    requires |w| == |p| == 16 && i < 8 && w[2 * i] == s && w[2 * i + 1] == s && p[2 * i] == a && p[2 * i + 1] == b
    requires q == (a + b) * s && Fits32(q)
    ensures Madd16(w, p)[i] == q
  {
    SplatPair(a, b, s);
    MaddLane(w, p, i, s, a, s, b);
  }

  lemma RunsMadd(w: seq<int>, u: seq<int>, s: seq<int>, k: Coded, qs: seq<int>, run: nat)
    requires k.Valid() && Int8(qs) && run < 8 && Operands6(u, s, k, qs, run) && ScalesOfRun(w, k, run)
    ensures RunScaled(Madd16(w, Maddubs(u, s)), k, qs, run)
  {
    var v := Madd16(w, Maddubs(u, s));
    forall d: nat | d < 8 ensures v[d] == ScaledQuad(k, qs, run, d) {
      RunMadd(w, u, s, k, qs, run, d);
    }
  }

  ghost predicate RunLanes(v: seq<int>, k: Coded, qs: seq<int>, n: nat)
    requires k.Valid() && |qs| == 256 && n <= 8
  {
    |v| == 8 && forall d: nat | d < 8 :: v[d] == RunLane(k, qs, d, n)
  }

  lemma LaneStep(acc: int, pl: int, ph: int, k: Coded, qs: seq<int>, run: nat, d: nat)
    requires k.Valid() && Int8(qs) && run + 1 < 8 && d < 8 && acc == RunLane(k, qs, d, run)
    requires pl == ScaledQuad(k, qs, run, d) && ph == ScaledQuad(k, qs, run + 1, d)
    ensures Wrap32(acc + Wrap32(pl + ph)) == RunLane(k, qs, d, run + 2)
  {
    ScaledQuadBound(k, qs, run, d);
    ScaledQuadBound(k, qs, run + 1, d);
    NoWrap(pl + ph);
    RunLaneBound(k, qs, d, run + 2);
    assert RunLane(k, qs, d, run + 1) == acc + pl;
    AddTwo(acc, pl + ph, pl, ph, RunLane(k, qs, d, run + 2));
  }

  lemma RunStep(acc: seq<int>, pl: seq<int>, ph: seq<int>, k: Coded, qs: seq<int>, run: nat)
    requires k.Valid() && Int8(qs) && run + 1 < 8 && RunLanes(acc, k, qs, run)
    requires RunScaled(pl, k, qs, run) && RunScaled(ph, k, qs, run + 1)
    ensures RunLanes(Add32(acc, Add32(pl, ph)), k, qs, run + 2)
  {
    var r := Add32(acc, Add32(pl, ph));
    forall d: nat | d < 8 ensures r[d] == RunLane(k, qs, d, run + 2) {
      LaneStep(acc[d], pl[d], ph[d], k, qs, run, d);
      assert r[d] == Wrap32(acc[d] + Wrap32(pl[d] + ph[d]));
    }
  }

  // ----- the offset -----

  /** Shift left by five in 32-bit lanes. */
  function Slli5(v: seq<int>): (r: seq<int>)
    ensures |r| == |v|
  {
    seq(|v|, (i: nat) requires i < |v| => Wrap32(32 * v[i]))
  }

  function Sub32(a: seq<int>, b: seq<int>): (r: seq<int>)
    requires |a| == |b|
    ensures |r| == |a|
  {
    seq(|a|, (k: nat) requires k < |a| => Wrap32(a[k] - b[k]))
  }

  ghost predicate Offsets(v: seq<int>, k: Coded, bsums: seq<int>)
    requires k.Valid() && |bsums| == 16
  {
    |v| == 8 && forall d: nat | d < 8 :: v[d] == Offset(k, bsums, d)
  }

  lemma OffsetBound(k: Coded, bsums: seq<int>, d: nat)
    requires k.Valid() && SumsBounded(bsums) && d < 8
    ensures -16777216 <= Offset(k, bsums, d) <= 16777216
  {
    SignedBound(bsums[2 * d], k.sc[2 * d], 2048);
    SignedBound(bsums[2 * d + 1], k.sc[2 * d + 1], 2048);
  }

  lemma OffsetLane(block: Bytes, bsums: seq<int>, d: nat)
    requires IsBlock6(block) && SumsBounded(bsums) && d < 8
    ensures Slli5(Madd16(bsums, WidenSigned(ScalesOf(block))))[d] == Offset(Decoded(block), bsums, d)
  {
    var k, w := Decoded(block), WidenSigned(ScalesOf(block));
    OffsetBound(k, bsums, d);
    assert w[2 * d] == k.sc[2 * d] && w[2 * d + 1] == k.sc[2 * d + 1];
    MaddLane(bsums, w, d, bsums[2 * d], w[2 * d], bsums[2 * d + 1], w[2 * d + 1]);
    NoWrap(Offset(k, bsums, d));
  }

  /** The (q - 32) offset, once per block: the sixteen sums against the sixteen scales,
      times 32. */
  method BlockOffset(block: Bytes, bsums: seq<int>) returns (q8sclsub: seq<int>)
    requires IsBlock6(block) && SumsBounded(bsums)
    ensures Offsets(q8sclsub, Decoded(block), bsums)
  {
    q8sclsub := Slli5(Madd16(bsums, WidenSigned(ScalesOf(block))));
    forall d: nat | d < 8 ensures q8sclsub[d] == Offset(Decoded(block), bsums, d) {
      OffsetLane(block, bsums, d);
    }
  }

  /** The lanes as the kernel converts them. */
  ghost predicate Lanes6(v: seq<int>, k: Coded, qs: seq<int>, bsums: seq<int>)
    requires k.Valid() && |qs| == 256 && |bsums| == 16
  {
    |v| == 8 && forall d: nat | d < 8 :: v[d] == Lane6(k, qs, bsums, d) && Fits32(v[d])
  }

  lemma Difference(sumi: seq<int>, off: seq<int>, k: Coded, qs: seq<int>, bsums: seq<int>)
    requires k.Valid() && Int8(qs) && SumsBounded(bsums)
    requires RunLanes(sumi, k, qs, 8) && Offsets(off, k, bsums)
    ensures Lanes6(Sub32(sumi, off), k, qs, bsums)
  {
    var v := Sub32(sumi, off);
    forall d: nat | d < 8 ensures v[d] == Lane6(k, qs, bsums, d) && Fits32(v[d]) {
      LaneDifference(k, qs, bsums, d);
      NoWrap(sumi[d] - off[d]);
    }
  }

  lemma LaneDifference(k: Coded, qs: seq<int>, bsums: seq<int>, d: nat)
    requires k.Valid() && Int8(qs) && SumsBounded(bsums) && d < 8
    ensures Lane6(k, qs, bsums, d) == RunLane(k, qs, d, 8) - Offset(k, bsums, d) && Fits32(Lane6(k, qs, bsums, d))
  {
    RunLaneBound(k, qs, d, 8);
    OffsetBound(k, bsums, d);
  }

  // ----- the kernel -----

  /** The activations of run `run`. */
  function RunActs(qs: seq<int>, run: nat): (v: seq<int>)
    requires |qs| == 256 && run < 8
    ensures |v| == 32
  {
    qs[32 * run..32 * run + 32]
  }

  lemma {:induction false} SumIs6<F>(v: seq<int>, k: Coded, act: Act<F>, m: nat)
    requires k.Valid() && |act.qs| == 256 && |act.bsums| == 16 && m <= 8 && Lanes6(v, k, act.qs, act.bsums)
    ensures SumLanes(v, m) == Lane6To(k, act, m)
  {
    if m > 0 { SumIs6(v, k, act, m - 1); }
  }

  /** The lanes add up to the block's exact integer. */
  lemma SumIsDot6<F>(v: seq<int>, k: Coded, act: Act<F>)
    requires k.Valid() && act.Valid() && Lanes6(v, k, act.qs, act.bsums)
    ensures SumLanes(v, 8) == Dot6(k, act.qs, 256)
  {
    SumIs6(v, k, act, 8);
    LanesAreDot6(k, act);
  }

  /** The registers of run `r` of half `j`. */
  function RunWeights(block: Bytes, j: nat, r: nat): (u: seq<int>)
    requires IsBlock6(block) && j < 2 && r < 4
    ensures |u| == 32
  {
    Sixes(QlOf(block, j, r), QhOf(block, j), r)
  }

  lemma RunIsScaled(block: Bytes, qs: seq<int>, j: nat, r: nat, run: nat)
    requires IsBlock6(block) && Int8(qs) && j < 2 && r < 4 && run == 4 * j + r
    ensures RunScaled(Madd16(RunScales(block, run), Maddubs(RunWeights(block, j, r), RunActs(qs, run))), Decoded(block), qs, run)
  {
    RunOperands(block, qs, j, r);
    RunScalesAre(block, run);
    RunsMadd(RunScales(block, run), RunWeights(block, j, r), RunActs(qs, run), Decoded(block), qs, run);
  }

  /** Runs `r` and `r + 1` of half `j`, unpacked already, added to one row's
      accumulator. */
  method AddRuns(block: Bytes, qs: seq<int>, ghost j: nat, ghost r: nat, run: nat, ul: seq<int>, uh: seq<int>,
                 wl: seq<int>, wh: seq<int>, acc: seq<int>) returns (sumi: seq<int>)
    requires IsBlock6(block) && Int8(qs) && j < 2 && r < 3 && run == 4 * j + r && RunLanes(acc, Decoded(block), qs, run)
    requires ul == RunWeights(block, j, r) && uh == RunWeights(block, j, r + 1)
    requires wl == RunScales(block, run) && wh == RunScales(block, run + 1)
    ensures RunLanes(sumi, Decoded(block), qs, run + 2)
  {
    RunIsScaled(block, qs, j, r, run);
    RunIsScaled(block, qs, j, r + 1, run + 1);
    var pl := Madd16(wl, Maddubs(ul, RunActs(qs, run)));
    var ph := Madd16(wh, Maddubs(uh, RunActs(qs, run + 1)));
    RunStep(acc, pl, ph, Decoded(block), qs, run);
    sumi := Add32(acc, Add32(pl, ph));
  }

  method SubtractOffset<F>(sumi: seq<int>, off: seq<int>, ghost k: Coded, ghost act: Act<F>) returns (v: seq<int>)
    requires k.Valid() && act.Valid() && RunLanes(sumi, k, act.qs, 8) && Offsets(off, k, act.bsums)
    ensures Lanes6(v, k, act.qs, act.bsums) && SumLanes(v, 8) == Dot6(k, act.qs, 256)
  {
    ActBounded(act);
    Difference(sumi, off, k, act.qs, act.bsums);
    v := Sub32(sumi, off);
    SumIsDot6(v, k, act);
  }

  lemma NothingYet(k: Coded, qs: seq<int>)
    requires k.Valid() && |qs| == 256
    ensures RunLanes(seq(8, _ => 0), k, qs, 0)
  {
  }

  /** The four runs of half `j`, added in pairs. */
  method HalfRuns(block: Bytes, qs: seq<int>, j: nat, run: nat, acc: seq<int>) returns (sumi: seq<int>)
    requires IsBlock6(block) && Int8(qs) && j < 2 && run == 4 * j && RunLanes(acc, Decoded(block), qs, run)
    ensures RunLanes(sumi, Decoded(block), qs, run + 4)
  {
    sumi := AddRuns(block, qs, j, 0, run, RunWeights(block, j, 0), RunWeights(block, j, 1),
                    RunScales(block, run), RunScales(block, run + 1), acc);
    sumi := AddRuns(block, qs, j, 2, run + 2, RunWeights(block, j, 2), RunWeights(block, j, 3),
                    RunScales(block, run + 2), RunScales(block, run + 3), sumi);
  }

  /** Both halves. */
  method AllRuns(block: Bytes, qs: seq<int>) returns (sumi: seq<int>)
    requires IsBlock6(block) && Int8(qs)
    ensures RunLanes(sumi, Decoded(block), qs, 8)
  {
    sumi := seq(8, _ => 0);
    NothingYet(Decoded(block), qs);
    var run: nat := 0;
    for j := 0 to 2
      invariant run == 4 * j && RunLanes(sumi, Decoded(block), qs, run)
    {
      sumi := HalfRuns(block, qs, j, run, sumi);
      run := run + 4;
    }
  }

  /** Main result: no lane wraps, and the eight int32 lanes add up to
      `sum_p scale_p * (q_p - 32) * a_p` over the weights as the format decodes them,
      although the kernel multiplies unsigned weights and takes the offset off once. */
  method RowBlock6<F>(block: Bytes, act: Act<F>) returns (sumi: seq<int>)
    requires IsBlock6(block) && act.Valid()
    ensures Lanes6(sumi, Decoded(block), act.qs, act.bsums)
    ensures SumLanes(sumi, 8) == Dot6(Decoded(block), act.qs, 256)
  {
    ActBounded(act);
    var q8sclsub := BlockOffset(block, act.bsums);
    sumi := AllRuns(block, act.qs);
    sumi := SubtractOffset(sumi, q8sclsub, Decoded(block), act);
  }
}
