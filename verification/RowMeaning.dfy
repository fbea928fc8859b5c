/** What the row kernels compute over the reals: the dot product of a weight row, decoded
    one weight at a time, with an activation row. */
module RowMeaning {
  import opened Q4KBlock
  import opened Q4KColumns
  import opened Q4KProduct
  import opened Q4KRow
  import opened Q6KBlock
  import opened Q6KRow
  import opened Dequant
  import opened GemmRows

  /** Exact arithmetic; how two bytes make a half is any function. */
  ghost predicate OverReals(ops: Ops<real>) {
    && ops.zero == 0.0
    && (forall a: real, b: real :: ops.mul(a, b) == Product2(a, b))
    && (forall a: real, b: real :: ops.add(a, b) == a + b)
    && (forall a: real, b: real :: ops.sub(a, b) == a - b)
    && (forall a: real :: ops.neg(a) == -a)
    && (forall a: real, b: real, c: real :: ops.fma(a, b, c) == Product2(a, b) + c)
    && forall i: int :: ops.ofInt(i) == i as real
  }

  function Product2(a: real, b: real): real { a * b }

  // ----- the reference -----

  /** One block: its decoded weights against its activations, scaled by the activations'
      own factor. */
  function BlockTerm(half: (bv8, bv8) -> real, kind: Kind, block: Bytes, act: Act<real>): real
    requires |block| == BlockSize(kind) && act.Valid()
  {
    Product2(act.d, if kind == Q4K then BlockReal(block, half(block[0], block[1]), half(block[2], block[3]), act.qs, 8)
                    else BlockReal6(Decoded(block), half(block[208], block[209]), act.qs, 256))
  }

  /** The first `n` blocks of a row. */
  function RowReal(half: (bv8, bv8) -> real, kind: Kind, blocks: seq<Bytes>, acts: seq<Act<real>>, n: nat): real
    requires Paired(kind, blocks, acts) && n <= |blocks|
  {
    if n == 0 then 0.0 else RowReal(half, kind, blocks, acts, n - 1) + BlockTerm(half, kind, blocks[n - 1], acts[n - 1])
  }

  // ----- sums of lanes -----

  function SumReals(v: seq<real>, n: nat): real
    requires n <= |v|
  {
    if n == 0 then 0.0 else SumReals(v, n - 1) + v[n - 1]
  }

  lemma {:induction false} FmaSum(ops: Ops<real>, scale: real, v: seq<int>, acc: seq<real>, m: nat)
    requires OverReals(ops) && |v| == |acc| && m <= |acc|
    ensures SumReals(FmaAll(ops, scale, v, acc), m) == Times(scale, SumLanes(v, m)) + SumReals(acc, m)
  {
    if m > 0 {
      FmaSum(ops, scale, v, acc, m - 1);
      FmaAt(ops, scale, v, acc, m - 1);
      TimesSum(scale, SumLanes(v, m - 1), v[m - 1]);
    }
  }

  lemma FmaAt(ops: Ops<real>, scale: real, v: seq<int>, acc: seq<real>, k: nat)
    requires OverReals(ops) && k < |v| == |acc|
    ensures FmaAll(ops, scale, v, acc)[k] == Times(scale, v[k]) + acc[k]
  {
    assert ops.fma(scale, ops.ofInt(v[k]), acc[k]) == Product2(scale, v[k] as real) + acc[k];
  }

  lemma TimesSum(x: real, a: int, b: int)
    ensures Times(x, a + b) == Times(x, a) + Times(x, b)
  {
    Gather(x, a as real, b as real, (a + b) as real);
  }

  lemma {:induction false} ZeroSum(ops: Ops<real>, n: nat, m: nat)
    requires OverReals(ops) && m <= n
    ensures SumReals(Zeros(ops, n), m) == 0.0
  {
    if m > 0 { ZeroSum(ops, n, m - 1); }
  }

  lemma SumOf8(v: seq<real>)
    requires |v| == 8
    ensures SumReals(v, 8) == v[0] + v[1] + v[2] + v[3] + v[4] + v[5] + v[6] + v[7]
  {
    SumOf4(v);
    assert SumReals(v, 5) == SumReals(v, 4) + v[4];
    assert SumReals(v, 6) == SumReals(v, 5) + v[5];
    assert SumReals(v, 7) == SumReals(v, 6) + v[6];
  }

  lemma SumOf4(v: seq<real>)
    requires |v| >= 4
    ensures SumReals(v, 4) == v[0] + v[1] + v[2] + v[3]
  {
    assert SumReals(v, 1) == SumReals(v, 0) + v[0];
    assert SumReals(v, 2) == SumReals(v, 1) + v[1];
    assert SumReals(v, 3) == SumReals(v, 2) + v[2];
  }

  lemma Tree8Real(ops: Ops<real>, v: seq<real>)
    requires OverReals(ops) && |v| == 8
    ensures Tree(ops, v) == SumReals(v, 8)
  {
    Tree8(ops, v);
    SumOf8(v);
  }

  lemma Tree4Real(ops: Ops<real>, v: seq<real>)
    requires OverReals(ops) && |v| == 4
    ensures Tree(ops, v) == SumReals(v, 4)
  {
    Tree4(ops, v);
    SumOf4(v);
  }

  // ----- the integers of a block -----

  lemma IntsSum(kind: Kind, block: Bytes, act: Act<real>)
    requires |block| == BlockSize(kind) && act.Valid()
    ensures SumLanes(BlockInts(kind, block, act), 8)
         == if kind == Q4K then BlockDot(block, act.qs, 8) else Dot6(Decoded(block), act.qs, 256)
  {
    if kind == Q4K {
      RowSum(BlockInts(kind, block, act), block, act.qs, 8);
      LanesAreBlock(block, act.qs, 8);
    } else {
      LaneSum6(BlockInts(kind, block, act), Decoded(block), act, 8);
      LanesAreDot6(Decoded(block), act);
    }
  }

  lemma {:induction false} RowSum(v: seq<int>, block: Bytes, qs: seq<int>, m: nat)
    requires IsBlock(block) && |qs| == 256 && |v| == 8 && m <= 8 && forall i: nat | i < 8 :: v[i] == RowLane(block, qs, i, 8)
    ensures SumLanes(v, m) == LanesTo(block, qs, m, 8)
  {
    if m > 0 { RowSum(v, block, qs, m - 1); }
  }

  lemma {:induction false} LaneSum6(v: seq<int>, k: Coded, act: Act<real>, m: nat)
    requires k.Valid() && |act.qs| == 256 && |act.bsums| == 16 && |v| == 8 && m <= 8
    requires forall i: nat | i < 8 :: v[i] == Lane6(k, act.qs, act.bsums, i)
    ensures SumLanes(v, m) == Lane6To(k, act, m)
  {
    if m > 0 { LaneSum6(v, k, act, m - 1); }
  }

  lemma MinsSum(block: Bytes, act: Act<real>)
    requires IsBlock(block) && act.Valid()
    ensures SumLanes(BlockMins(block, act), 4) == BlockMin(block, act.bsums, 8)
  {
    MinSum(BlockMins(block, act), block, act.bsums, 4);
  }

  // ----- one row -----

  lemma ScalesAre(ops: Ops<real>, kind: Kind, block: Bytes, act: Act<real>)
    requires OverReals(ops) && |block| == BlockSize(kind)
    ensures BlockScale(ops, kind, block, act)
         == Product2(act.d, if kind == Q4K then ops.half(block[0], block[1]) else ops.half(block[208], block[209]))
    ensures kind == Q4K ==> MinScale(ops, block, act) == Product2(-act.d, ops.half(block[2], block[3]))
  {
  }

  /** The scaled integers of one block are its decoded dot product. */
  lemma BlockMeans4(ops: Ops<real>, block: Bytes, act: Act<real>, scale: real, minScale: real)
    requires IsBlock(block) && act.Valid() && scale == Product2(act.d, ops.half(block[0], block[1]))
    requires minScale == Product2(-act.d, ops.half(block[2], block[3]))
    ensures Times(scale, BlockDot(block, act.qs, 8)) + Times(minScale, BlockMin(block, act.bsums, 8))
         == BlockTerm(ops.half, Q4K, block, act)
  {
    var d, dmin := ops.half(block[0], block[1]), ops.half(block[2], block[3]);
    BlockIsDecoded(block, d, dmin, act, 8);
    TwoScales(act.d, d, dmin, BlockDot(block, act.qs, 8), BlockMin(block, act.bsums, 8));
  }

  lemma TwoScales(a: real, d: real, dmin: real, x: int, y: int)
    ensures Times(Product2(a, d), x) + Times(Product2(-a, dmin), y) == Product2(a, Times(d, x) - Times(dmin, y))
  {
    var u, v := x as real, y as real;
    assert (a * d) * u == a * (d * u);
    assert (-a * dmin) * v == -(a * (dmin * v));
    assert a * (d * u - dmin * v) == a * (d * u) - a * (dmin * v);
  }

  lemma BlockMeans6(ops: Ops<real>, block: Bytes, act: Act<real>, scale: real)
    requires IsBlock6(block) && act.Valid() && scale == Product2(act.d, ops.half(block[208], block[209]))
    ensures Times(scale, Dot6(Decoded(block), act.qs, 256)) == BlockTerm(ops.half, Q6K, block, act)
  {
    var d := ops.half(block[208], block[209]);
    Block6IsDecoded(Decoded(block), d, act.qs, 256);
    TwoScales(act.d, d, 0.0, Dot6(Decoded(block), act.qs, 256), 0);
  }

  ghost function LaneTotal(ops: Ops<real>, kind: Kind, blocks: seq<Bytes>, acts: seq<Act<real>>, n: nat): real
    requires Paired(kind, blocks, acts) && n <= |blocks|
  {
    SumReals(Lanes(ops, kind, blocks, acts, n), 8) + SumReals(MinLanesAt(ops, kind, blocks, acts, n), 4)
  }

  lemma MainStep(ops: Ops<real>, kind: Kind, blocks: seq<Bytes>, acts: seq<Act<real>>, b: nat, ints: seq<int>)
    requires OverReals(ops) && Paired(kind, blocks, acts) && b < |blocks| && ints == BlockInts(kind, blocks[b], acts[b])
    ensures SumReals(Lanes(ops, kind, blocks, acts, b + 1), 8)
         == Times(BlockScale(ops, kind, blocks[b], acts[b]), SumLanes(ints, 8)) + SumReals(Lanes(ops, kind, blocks, acts, b), 8)
  {
    LanesNext(ops, kind, blocks, acts, b, Lanes(ops, kind, blocks, acts, b), MinLanesAt(ops, kind, blocks, acts, b));
    FmaSum(ops, BlockScale(ops, kind, blocks[b], acts[b]), ints, Lanes(ops, kind, blocks, acts, b), 8);
  }

  lemma MinStep(ops: Ops<real>, kind: Kind, blocks: seq<Bytes>, acts: seq<Act<real>>, b: nat)
    requires OverReals(ops) && Paired(kind, blocks, acts) && b < |blocks|
    ensures SumReals(MinLanesAt(ops, kind, blocks, acts, b + 1), 4)
         == SumReals(MinLanesAt(ops, kind, blocks, acts, b), 4)
            + if kind == Q4K then Times(MinScale(ops, blocks[b], acts[b]), SumLanes(BlockMins(blocks[b], acts[b]), 4)) else 0.0
  {
    var mn := MinLanesAt(ops, kind, blocks, acts, b);
    LanesNext(ops, kind, blocks, acts, b, Lanes(ops, kind, blocks, acts, b), mn);
    if kind == Q4K { FmaSum(ops, MinScale(ops, blocks[b], acts[b]), BlockMins(blocks[b], acts[b]), mn, 4); }
  }

  lemma LaneStep(ops: Ops<real>, kind: Kind, blocks: seq<Bytes>, acts: seq<Act<real>>, b: nat)
    requires OverReals(ops) && Paired(kind, blocks, acts) && b < |blocks|
    ensures LaneTotal(ops, kind, blocks, acts, b + 1)
         == LaneTotal(ops, kind, blocks, acts, b) + BlockTerm(ops.half, kind, blocks[b], acts[b])
  {
    var block, act := blocks[b], acts[b];
    MainStep(ops, kind, blocks, acts, b, BlockInts(kind, block, act));
    MinStep(ops, kind, blocks, acts, b);
    IntsSum(kind, block, act);
    ScalesAre(ops, kind, block, act);
    if kind == Q4K {
      MinsSum(block, act);
      BlockMeans4(ops, block, act, BlockScale(ops, kind, block, act), MinScale(ops, block, act));
    } else {
      BlockMeans6(ops, block, act, BlockScale(ops, kind, block, act));
    }
  }

  lemma NothingYet(ops: Ops<real>, kind: Kind, blocks: seq<Bytes>, acts: seq<Act<real>>)
    requires OverReals(ops) && Paired(kind, blocks, acts)
    ensures LaneTotal(ops, kind, blocks, acts, 0) == 0.0
  {
    ZeroSum(ops, 8, 8);
    ZeroSum(ops, 4, 4);
  }

  lemma {:induction false} Telescopes(totals: seq<real>, terms: seq<real>, n: nat)
    requires n <= |terms| && |totals| == |terms| + 1 && totals[0] == 0.0
    requires forall b: nat, e: nat | b < |terms| && e == b + 1 :: totals[e] == totals[b] + terms[b]
    ensures totals[n] == SumReals(terms, n)
  {
    if n > 0 { Telescopes(totals, terms, n - 1); }
  }

  lemma {:induction false} RowIsSum(half: (bv8, bv8) -> real, kind: Kind, blocks: seq<Bytes>, acts: seq<Act<real>>, terms: seq<real>, n: nat)
    requires Paired(kind, blocks, acts) && n <= |blocks| == |terms|
    requires forall b: nat | b < |blocks| :: terms[b] == BlockTerm(half, kind, blocks[b], acts[b])
    ensures RowReal(half, kind, blocks, acts, n) == SumReals(terms, n)
  {
    if n > 0 { RowIsSum(half, kind, blocks, acts, terms, n - 1); }
  }

  /** The lanes of both accumulators together are the row so far. */
  lemma LanesMean(ops: Ops<real>, kind: Kind, blocks: seq<Bytes>, acts: seq<Act<real>>)
    requires OverReals(ops) && Paired(kind, blocks, acts)
    ensures LaneTotal(ops, kind, blocks, acts, |blocks|) == RowReal(ops.half, kind, blocks, acts, |blocks|)
  {
    var n := |blocks|;
    var terms := seq(n, (b: nat) requires b < n && Paired(kind, blocks, acts) => BlockTerm(ops.half, kind, blocks[b], acts[b]));
    var totals := seq(n + 1, (b: nat) requires b <= n && Paired(kind, blocks, acts) => LaneTotal(ops, kind, blocks, acts, b));
    NothingYet(ops, kind, blocks, acts);
    forall b: nat, e: nat | b < n && e == b + 1 ensures totals[e] == totals[b] + terms[b] {
      LaneStep(ops, kind, blocks, acts, b);
    }
    Telescopes(totals, terms, n);
    RowIsSum(ops.half, kind, blocks, acts, terms, n);
  }

  /** Main result: over the reals the one-row kernel's tree is the dot product of the
      decoded weights with the activations. */
  lemma RowMeans(ops: Ops<real>, kind: Kind, blocks: seq<Bytes>, acts: seq<Act<real>>)
    requires OverReals(ops) && Paired(kind, blocks, acts)
    ensures RowValue(ops, kind, blocks, acts) == RowReal(ops.half, kind, blocks, acts, |blocks|)
  {
    LanesMean(ops, kind, blocks, acts);
    Tree8Real(ops, Lanes(ops, kind, blocks, acts, |blocks|));
    Tree4Real(ops, MinLanesAt(ops, kind, blocks, acts, |blocks|));
  }

  predicate Any(x: real) { true }

  lemma RealZeros(ops: Ops<real>)
    requires OverReals(ops)
    ensures ZeroLaws(ops, Any)
  {
  }

  /** And so is the several-row kernel's. */
  lemma TileMeans(ops: Ops<real>, kind: Kind, blocks: seq<Bytes>, acts: seq<Act<real>>)
    requires OverReals(ops) && Paired(kind, blocks, acts)
    ensures TileValue(ops, kind, blocks, acts) == RowReal(ops.half, kind, blocks, acts, |blocks|)
  {
    RealZeros(ops);
    TileIsRow(ops, Any, kind, blocks, acts);
    RowMeans(ops, kind, blocks, acts);
  }
}
