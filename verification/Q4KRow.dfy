/** The row kernel on the file's own blocks: its lanes add up to the same exact
    integers the panels give. */
module Q4KRow {
  import opened Q4KBlock
  import opened Simd
  import opened Q4KGemv
  import opened Q4KColumns

  /** Four neighbouring products of group `g`: what dword `i` gets from one
      `maddubs`/`madd` pair. */
  function Quad(block: Bytes, qs: seq<int>, g: nat, i: nat): int
    requires IsBlock(block) && |qs| == 256 && g < 8 && i < 8
  {
    LanePair(block, qs, g, 0, i) + LanePair(block, qs, g, 1, i)
  }

  /** Dword `i` of the accumulator after the groups below `n`. */
  function RowLane(block: Bytes, qs: seq<int>, i: nat, n: nat): int
    requires IsBlock(block) && |qs| == 256 && i < 8 && n <= 8
  {
    if n == 0 then 0 else RowLane(block, qs, i, n - 1) + Quad(block, qs, n - 1, i) * Scale(block, n - 1)
  }

  function SumLanes(v: seq<int>, n: nat): int
    requires n <= |v|
  {
    if n == 0 then 0 else SumLanes(v, n - 1) + v[n - 1]
  }

  // ----- the lanes add up -----

  /** The first `m` quads of group `g`, scaled, are the first `4 * m` products,
      scaled. */
  function Quads(block: Bytes, qs: seq<int>, g: nat, m: nat): int
    requires IsBlock(block) && |qs| == 256 && g < 8 && m <= 8
  {
    if m == 0 then 0 else Quads(block, qs, g, m - 1) + Quad(block, qs, g, m - 1)
  }

  lemma {:induction false} QuadsAreLanes(block: Bytes, qs: seq<int>, g: nat, m: nat)
    requires IsBlock(block) && |qs| == 256 && g < 8 && m <= 8
    ensures Quads(block, qs, g, m) == LaneSum(block, qs, g, 0, m) + LaneSum(block, qs, g, 1, m)
  {
    if m > 0 { QuadsAreLanes(block, qs, g, m - 1); }
  }

  /** The first `m` dwords after `n` groups. */
  function LanesTo(block: Bytes, qs: seq<int>, m: nat, n: nat): int
    requires IsBlock(block) && |qs| == 256 && m <= 8 && n <= 8
  {
    if m == 0 then 0 else LanesTo(block, qs, m - 1, n) + RowLane(block, qs, m - 1, n)
  }

  lemma {:induction false} LanesGrow(block: Bytes, qs: seq<int>, m: nat, n: nat)
    requires IsBlock(block) && |qs| == 256 && m <= 8 && n < 8
    ensures LanesTo(block, qs, m, n + 1) == LanesTo(block, qs, m, n) + Quads(block, qs, n, m) * Scale(block, n)
  {
    if m > 0 {
      LanesGrow(block, qs, m - 1, n);
      Distribute(Quads(block, qs, n, m - 1), Quad(block, qs, n, m - 1), Scale(block, n));
    }
  }

  lemma {:induction false} LanesEmpty(block: Bytes, qs: seq<int>, m: nat)
    requires IsBlock(block) && |qs| == 256 && m <= 8
    ensures LanesTo(block, qs, m, 0) == 0
  {
    if m > 0 { LanesEmpty(block, qs, m - 1); }
  }

  /** The eight dwords together are the block's integer. */
  lemma {:induction false} LanesAreBlock(block: Bytes, qs: seq<int>, n: nat)
    requires IsBlock(block) && |qs| == 256 && n <= 8
    ensures LanesTo(block, qs, 8, n) == BlockDot(block, qs, n)
  {
    if n == 0 {
      LanesEmpty(block, qs, 8);
    } else {
      LanesAreBlock(block, qs, n - 1);
      LanesGrow(block, qs, 8, n - 1);
      QuadsAreLanes(block, qs, n - 1, 8);
      LanesAreGroup(block, qs, n - 1, 8);
    }
  }

  // ----- the kernel -----

  /** A scale broadcast over sixteen int16 lanes. */
  function Splat(s: int): (r: seq<int>)
    ensures |r| == 16
  {
    seq(16, _ => s)
  }

  lemma QuadBound(block: Bytes, qs: seq<int>, g: nat, i: nat)
    requires IsBlock(block) && Int8(qs) && g < 8 && i < 8
    ensures -483840 <= Quad(block, qs, g, i) * Scale(block, g) <= 483840
  {
    PairBound(block, qs, g, 0, i);
    PairBound(block, qs, g, 1, i);
    ScaledBound(Scale(block, g), Quad(block, qs, g, i), 7680);
  }

  lemma {:induction false} RowLaneBound(block: Bytes, qs: seq<int>, i: nat, n: nat)
    requires IsBlock(block) && Int8(qs) && i < 8 && n <= 8
    ensures -483840 * n <= RowLane(block, qs, i, n) <= 483840 * n
  {
    if n > 0 {
      RowLaneBound(block, qs, i, n - 1);
      QuadBound(block, qs, n - 1, i);
    }
  }

  /** Thirty-two weights of group `g`, against its activations. */
  ghost predicate GroupOperands(u: seq<int>, s: seq<int>, block: Bytes, qs: seq<int>, g: nat)
    requires IsBlock(block) && |qs| == 256 && g < 8
  {
    |u| == |s| == 32 && forall i: nat | i < 32 :: u[i] == Quant(block, g, i) && s[i] == qs[32 * g + i]
  }

  lemma RowMaddubs(u: seq<int>, s: seq<int>, block: Bytes, qs: seq<int>, g: nat, i: nat, h: nat)
    requires IsBlock(block) && Int8(qs) && g < 8 && i < 8 && h < 2 && GroupOperands(u, s, block, qs, g)
    ensures Maddubs(u, s)[2 * i + h] == LanePair(block, qs, g, h, i)
  {
    var k := 4 * i + 2 * h;
    PairBound(block, qs, g, h, i);
    MaddubsLane(u, s, 2 * i + h, Quant(block, g, k), qs[32 * g + k], Quant(block, g, k + 1), qs[32 * g + k + 1]);
  }

  lemma SplatPair(a: int, b: int, w: int)
    ensures w * a + w * b == (a + b) * w
  {
  }

  lemma SplatLane(w: int, p: seq<int>, i: nat, a: int, b: int, q: int)
    requires |p| == 16 && i < 8 && p[2 * i] == a && p[2 * i + 1] == b && q == (a + b) * w && Fits32(q)
    ensures Madd16(Splat(w), p)[i] == q
  {
    SplatPair(a, b, w);
    MaddLane(Splat(w), p, i, w, a, w, b);
  }

  lemma RowMadd(u: seq<int>, s: seq<int>, block: Bytes, qs: seq<int>, g: nat, i: nat)
    requires IsBlock(block) && Int8(qs) && g < 8 && i < 8 && GroupOperands(u, s, block, qs, g)
    ensures Madd16(Splat(Scale(block, g)), Maddubs(u, s))[i] == Quad(block, qs, g, i) * Scale(block, g)
  {
    RowMaddubs(u, s, block, qs, g, i, 0);
    RowMaddubs(u, s, block, qs, g, i, 1);
    QuadBound(block, qs, g, i);
    SplatLane(Scale(block, g), Maddubs(u, s), i, LanePair(block, qs, g, 0, i), LanePair(block, qs, g, 1, i),
              Quad(block, qs, g, i) * Scale(block, g));
  }

  ghost predicate RowLanes(v: seq<int>, block: Bytes, qs: seq<int>, n: nat)
    requires IsBlock(block) && |qs| == 256 && n <= 8
  {
    |v| == 8 && forall i: nat | i < 8 :: v[i] == RowLane(block, qs, i, n)
  }

  ghost predicate RowScaled(v: seq<int>, block: Bytes, qs: seq<int>, g: nat)
    requires IsBlock(block) && |qs| == 256 && g < 8
  {
    |v| == 8 && forall i: nat | i < 8 :: v[i] == Quad(block, qs, g, i) * Scale(block, g)
  }

  lemma LaneStep(acc: int, pl: int, ph: int, block: Bytes, qs: seq<int>, g: nat, i: nat)
    requires IsBlock(block) && Int8(qs) && g + 1 < 8 && i < 8 && acc == RowLane(block, qs, i, g)
    requires pl == Quad(block, qs, g, i) * Scale(block, g) && ph == Quad(block, qs, g + 1, i) * Scale(block, g + 1)
    ensures Wrap32(acc + Wrap32(pl + ph)) == RowLane(block, qs, i, g + 2)
  {
    QuadBound(block, qs, g, i);
    QuadBound(block, qs, g + 1, i);
    NoWrap(pl + ph);
    RowLaneBound(block, qs, i, g + 2);
    assert RowLane(block, qs, i, g + 1) == acc + pl;
    AddTwo(acc, pl + ph, pl, ph, RowLane(block, qs, i, g + 2));
  }

  lemma RowStep(acc: seq<int>, pl: seq<int>, ph: seq<int>, block: Bytes, qs: seq<int>, g: nat)
    requires IsBlock(block) && Int8(qs) && g + 1 < 8 && RowLanes(acc, block, qs, g)
    requires RowScaled(pl, block, qs, g) && RowScaled(ph, block, qs, g + 1)
    ensures RowLanes(Add32(acc, Add32(pl, ph)), block, qs, g + 2)
  {
    var r := Add32(acc, Add32(pl, ph));
    forall i: nat | i < 8 ensures r[i] == RowLane(block, qs, i, g + 2) {
      LaneStep(acc[i], pl[i], ph[i], block, qs, g, i);
      assert r[i] == Wrap32(acc[i] + Wrap32(pl[i] + ph[i]));
    }
  }

  /** The two halves of packed run `j`, as registers. */
  function RunNibbles(block: Bytes, j: nat, high: nat): (u: seq<int>)
    requires IsBlock(block) && j < 4 && high < 2
    ensures |u| == 32
  {
    Nibbles(block[QS_AT + 32 * j..QS_AT + 32 * j + 32], high)
  }

  function GroupActs(qs: seq<int>, j: nat, high: nat): (s: seq<int>)
    requires |qs| == 256 && j < 4 && high < 2
    ensures |s| == 32
  {
    qs[64 * j + 32 * high..64 * j + 32 * high + 32]
  }

  lemma RowOperands(block: Bytes, qs: seq<int>, j: nat, high: nat)
    requires IsBlock(block) && |qs| == 256 && j < 4 && high < 2
    ensures GroupOperands(RunNibbles(block, j, high), GroupActs(qs, j, high), block, qs, 2 * j + high)
  {
    var q4bits, g := block[QS_AT + 32 * j..QS_AT + 32 * j + 32], 2 * j + high;
    var u, s := RunNibbles(block, j, high), GroupActs(qs, j, high);
    forall i: nat | i < 32 ensures u[i] == Quant(block, g, i) && s[i] == qs[32 * g + i] {
      NibblesAt(q4bits, high, i);
      QuantByRun(block, j, high, i);
    }
  }

  /** One group, whoever unpacked its weights. */
  lemma GroupIsScaled(block: Bytes, ms: Bytes, qs: seq<int>, j: nat, high: nat)
    requires IsBlock(block) && Int8(qs) && j < 4 && high < 2 && ms == Unpacked(Scales(block))
    ensures RowScaled(Madd16(Splat(Value(ms[2 * j + high])), Maddubs(RunNibbles(block, j, high), GroupActs(qs, j, high))),
                      block, qs, 2 * j + high)
  {
    var g: nat := 2 * j + high;
    var u, s := RunNibbles(block, j, high), GroupActs(qs, j, high);
    RowOperands(block, qs, j, high);
    var p := Madd16(Splat(Value(ms[g])), Maddubs(u, s));
    forall i: nat | i < 8 ensures p[i] == Quad(block, qs, g, i) * Scale(block, g) {
      RowMadd(u, s, block, qs, g, i);
    }
  }

  lemma NothingYet(block: Bytes, qs: seq<int>)
    requires IsBlock(block) && |qs| == 256
    ensures RowLanes(seq(8, _ => 0), block, qs, 0)
  {
  }

  /** Packed run `j` against one row's activations, added to its accumulator. */
  method AddRun(block: Bytes, ghost ms: Bytes, qs: seq<int>, j: nat, q4l: seq<int>, q4h: seq<int>, scaleL: seq<int>, scaleH: seq<int>,
                acc: seq<int>) returns (sumi: seq<int>)
    requires IsBlock(block) && Int8(qs) && j < 4 && ms == Unpacked(Scales(block)) && RowLanes(acc, block, qs, 2 * j)
    requires q4l == RunNibbles(block, j, 0) && q4h == RunNibbles(block, j, 1)
    requires scaleL == Splat(Value(ms[2 * j])) && scaleH == Splat(Value(ms[2 * j + 1]))
    ensures RowLanes(sumi, block, qs, 2 * j + 2)
  {
    GroupIsScaled(block, ms, qs, j, 0);
    GroupIsScaled(block, ms, qs, j, 1);
    var p16l := Madd16(scaleL, Maddubs(q4l, GroupActs(qs, j, 0)));
    var p16h := Madd16(scaleH, Maddubs(q4h, GroupActs(qs, j, 1)));
    RowStep(acc, p16l, p16h, block, qs, 2 * j);
    sumi := Add32(acc, Add32(p16l, p16h));
  }

  /** Main result: the eight int32 lanes of the row kernel add up to the same integer
      the panel kernel computes for this column and block. */
  method RowBlock(block: Bytes, ms: Bytes, qs: seq<int>) returns (sumi: seq<int>)
    requires IsBlock(block) && Int8(qs) && ms == Unpacked(Scales(block))
    ensures RowLanes(sumi, block, qs, 8) && SumLanes(sumi, 8) == BlockDot(block, qs, 8)
    ensures forall i | 0 <= i < 8 :: Fits32(sumi[i])
  {
    sumi := seq(8, _ => 0);
    NothingYet(block, qs);
    for j := 0 to 4
      invariant RowLanes(sumi, block, qs, 2 * j)
    {
      sumi := AddRun(block, ms, qs, j, RunNibbles(block, j, 0), RunNibbles(block, j, 1),
                     Splat(Value(ms[2 * j])), Splat(Value(ms[2 * j + 1])), sumi);
    }
    RowResult(sumi, block, qs);
  }

  /** What the finished lanes are worth. */
  lemma RowResult(sumi: seq<int>, block: Bytes, qs: seq<int>)
    requires IsBlock(block) && Int8(qs) && RowLanes(sumi, block, qs, 8)
    ensures SumLanes(sumi, 8) == BlockDot(block, qs, 8) && forall i | 0 <= i < 8 :: Fits32(sumi[i])
  {
    forall i: nat | i < 8 ensures Fits32(sumi[i]) {
      RowLaneBound(block, qs, i, 8);
    }
    SumIs(sumi, block, qs, 8);
    LanesAreBlock(block, qs, 8);
  }

  lemma {:induction false} SumIs(v: seq<int>, block: Bytes, qs: seq<int>, m: nat)
    requires IsBlock(block) && |qs| == 256 && RowLanes(v, block, qs, 8) && m <= 8
    ensures SumLanes(v, m) == LanesTo(block, qs, m, 8)
  {
    if m > 0 { SumIs(v, block, qs, m - 1); }
  }

  lemma SwapPair(a: int, b: int, c: int, d: int)
    ensures a * b + c * d == b * a + d * c
  {
  }

  lemma MinProd(mins: seq<int>, q8s: seq<int>, block: Bytes, bsums: seq<int>, l: nat)
    requires IsBlock(block) && SumsBounded(bsums) && l < 4 && |mins| == 8 && q8s == GroupSums(bsums)
    requires mins[2 * l] == Minimum(block, 2 * l) && mins[2 * l + 1] == Minimum(block, 2 * l + 1)
    ensures Madd16(mins, q8s)[l] == MinGroup(block, bsums, 2 * l) + MinGroup(block, bsums, 2 * l + 1)
    ensures Fits32(Madd16(mins, q8s)[l])
  {
    GroupSumIs(bsums, 2 * l);
    GroupSumIs(bsums, 2 * l + 1);
    MinGroupBound(block, bsums, 2 * l);
    MinGroupBound(block, bsums, 2 * l + 1);
    SwapPair(mins[2 * l], q8s[2 * l], mins[2 * l + 1], q8s[2 * l + 1]);
    MaddLane(mins, q8s, l, mins[2 * l], q8s[2 * l], mins[2 * l + 1], q8s[2 * l + 1]);
  }

  /** Lane `l` of the minimum term: two groups. */
  function MinPairOf(block: Bytes, bsums: seq<int>, l: nat): int
    requires IsBlock(block) && |bsums| == 16 && l < 4
  {
    MinGroup(block, bsums, 2 * l) + MinGroup(block, bsums, 2 * l + 1)
  }

  ghost predicate MinLanes4(prod: seq<int>, block: Bytes, bsums: seq<int>)
    requires IsBlock(block) && |bsums| == 16
  {
    |prod| == 4 && forall l: nat | l < 4 :: prod[l] == MinPairOf(block, bsums, l) && Fits32(prod[l])
  }

  /** The minimum term: one `madd` of the eight minima against the eight group sums. */
  method RowMin(block: Bytes, ms: Bytes, bsums: seq<int>) returns (prod: seq<int>)
    requires IsBlock(block) && SumsBounded(bsums) && ms == Unpacked(Scales(block))
    ensures MinLanes4(prod, block, bsums) && SumLanes(prod, 4) == BlockMin(block, bsums, 8)
  {
    var mins, q8s := Widen(ms[8..]), GroupSums(bsums);
    assert forall g: nat | g < 8 :: mins[g] == Minimum(block, g);
    prod := Madd16(mins, q8s);
    forall l: nat | l < 4 ensures prod[l] == MinPairOf(block, bsums, l) && Fits32(prod[l]) {
      MinProd(mins, q8s, block, bsums, l);
    }
    MinSum(prod, block, bsums, 4);
  }

  lemma {:induction false} MinSum(prod: seq<int>, block: Bytes, bsums: seq<int>, n: nat)
    requires IsBlock(block) && |bsums| == 16 && |prod| == 4 && n <= 4
    requires forall l: nat | l < 4 :: prod[l] == MinPairOf(block, bsums, l)
    ensures SumLanes(prod, n) == BlockMin(block, bsums, 2 * n)
  {
    if n > 0 {
      MinSum(prod, block, bsums, n - 1);
      var g := 2 * n - 2;
      assert BlockMin(block, bsums, g + 1) == BlockMin(block, bsums, g) + MinGroup(block, bsums, g);
      assert BlockMin(block, bsums, g + 2) == BlockMin(block, bsums, g + 1) + MinGroup(block, bsums, g + 1);
    }
  }
}
