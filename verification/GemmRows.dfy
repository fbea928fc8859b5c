/** One weight row against one activation row, and against several at once: the same
    tree of float operations, whatever the float operations are. */
module GemmRows {
  import opened Q4KBlock
  import opened Simd
  import opened Q4KGemv
  import opened Q4KColumns
  import opened Q4KProduct
  import opened Q4KRow
  import opened Q6KBlock
  import opened Q6KRow

  datatype Kind = Q4K | Q6K

  function BlockSize(kind: Kind): nat { if kind == Q4K then 144 else 210 }

  /** A weight row and an activation row, block by block. */
  ghost predicate Paired<F>(kind: Kind, blocks: seq<Bytes>, acts: seq<Act<F>>) {
    && |blocks| == |acts|
    && (forall b | 0 <= b < |blocks| :: |blocks[b]| == BlockSize(kind))
    && forall b | 0 <= b < |acts| :: acts[b].Valid()
  }

  // ----- the operation tree -----

  /** The integer lanes of one block. */
  function BlockInts<F>(kind: Kind, block: Bytes, act: Act<F>): (v: seq<int>)
    requires |block| == BlockSize(kind) && |act.qs| == 256 && |act.bsums| == 16
    ensures |v| == 8
  {
    if kind == Q4K then seq(8, (i: nat) requires i < 8 => RowLane(block, act.qs, i, 8))
    else seq(8, (i: nat) requires i < 8 => Lane6(Decoded(block), act.qs, act.bsums, i))
  }

  /** The four integer lanes of the minimum term. */
  function BlockMins<F>(block: Bytes, act: Act<F>): (v: seq<int>)
    requires IsBlock(block) && |act.bsums| == 16
    ensures |v| == 4
  {
    seq(4, (l: nat) requires l < 4 => MinPairOf(block, act.bsums, l))
  }

  /** `acc = fma(broadcast(scale), convert(v), acc)`. */
  function FmaAll<F>(ops: Ops<F>, scale: F, v: seq<int>, acc: seq<F>): (r: seq<F>)
    requires |v| == |acc|
    ensures |r| == |acc|
  {
    seq(|acc|, (k: nat) requires k < |acc| => ops.fma(scale, ops.ofInt(v[k]), acc[k]))
  }

  function BlockScale<F>(ops: Ops<F>, kind: Kind, block: Bytes, act: Act<F>): F
    requires |block| == BlockSize(kind)
  {
    ops.mul(act.d, if kind == Q4K then ops.half(block[0], block[1]) else ops.half(block[208], block[209]))
  }

  function MinScale<F>(ops: Ops<F>, block: Bytes, act: Act<F>): F
    requires IsBlock(block)
  {
    ops.mul(ops.neg(act.d), ops.half(block[2], block[3]))
  }

  function Zeros<F>(ops: Ops<F>, n: nat): (v: seq<F>)
    ensures |v| == n
  {
    seq(n, _ => ops.zero)
  }

  /** The eight float lanes after `n` blocks. */
  ghost function Lanes<F>(ops: Ops<F>, kind: Kind, blocks: seq<Bytes>, acts: seq<Act<F>>, n: nat): (v: seq<F>)
    requires Paired(kind, blocks, acts) && n <= |blocks|
    ensures |v| == 8
  {
    if n == 0 then Zeros(ops, 8)
    else FmaAll(ops, BlockScale(ops, kind, blocks[n - 1], acts[n - 1]), BlockInts(kind, blocks[n - 1], acts[n - 1]),
                Lanes(ops, kind, blocks, acts, n - 1))
  }

  /** The four lanes of the minimum term, which q6_K does not have. */
  ghost function MinLanesAt<F>(ops: Ops<F>, kind: Kind, blocks: seq<Bytes>, acts: seq<Act<F>>, n: nat): (v: seq<F>)
    requires Paired(kind, blocks, acts) && n <= |blocks|
    ensures |v| == 4
  {
    if n == 0 || kind == Q6K then Zeros(ops, 4)
    else FmaAll(ops, MinScale(ops, blocks[n - 1], acts[n - 1]), BlockMins(blocks[n - 1], acts[n - 1]),
                MinLanesAt(ops, kind, blocks, acts, n - 1))
  }

  /** The second half of the lanes added to the first. */
  function FoldHalves<F>(ops: Ops<F>, v: seq<F>): (r: seq<F>)
    ensures |r| == |v| / 2
  {
    seq(|v| / 2, (k: nat) requires k < |v| / 2 => ops.add(v[k], v[k + |v| / 2]))
  }

  function Neighbours<F>(ops: Ops<F>, v: seq<F>): (r: seq<F>)
    ensures |r| == |v| / 2
  {
    seq(|v| / 2, (k: nat) requires k < |v| / 2 => ops.add(v[2 * k], v[2 * k + 1]))
  }

  /** Neighbours added until one value is left. */
  function Pairwise<F>(ops: Ops<F>, v: seq<F>): F
    requires |v| >= 1
    decreases |v|
  {
    if |v| == 1 then v[0] else Pairwise(ops, Neighbours(ops, v))
  }

  /** The order in which the kernels add four or eight lanes. */
  function Tree<F>(ops: Ops<F>, v: seq<F>): F
    requires |v| >= 2
  {
    Pairwise(ops, FoldHalves(ops, v))
  }

  lemma TreeOfTwo<F>(ops: Ops<F>, w: seq<F>)
    requires |w| == 2
    ensures Pairwise(ops, w) == ops.add(w[0], w[1])
  {
    assert Pairwise(ops, w) == Pairwise(ops, Neighbours(ops, w)) == Neighbours(ops, w)[0];
  }

  lemma TreeOfFour<F>(ops: Ops<F>, w: seq<F>)
    requires |w| == 4
    ensures Pairwise(ops, w) == ops.add(ops.add(w[0], w[1]), ops.add(w[2], w[3]))
  {
    TreeOfTwo(ops, Neighbours(ops, w));
  }

  /** Spelled out for the float lanes. */
  lemma Tree8<F>(ops: Ops<F>, v: seq<F>)
    requires |v| == 8
    ensures Tree(ops, v)
         == ops.add(ops.add(ops.add(v[0], v[4]), ops.add(v[1], v[5])), ops.add(ops.add(v[2], v[6]), ops.add(v[3], v[7])))
  {
    TreeOfFour(ops, FoldHalves(ops, v));
  }

  /** And for the minimum lanes. */
  lemma Tree4<F>(ops: Ops<F>, v: seq<F>)
    requires |v| == 4
    ensures Tree(ops, v) == ops.add(ops.add(v[0], v[2]), ops.add(v[1], v[3]))
  {
    TreeOfTwo(ops, FoldHalves(ops, v));
  }

  ghost function Total<F>(ops: Ops<F>, kind: Kind, blocks: seq<Bytes>, acts: seq<Act<F>>): F
    requires Paired(kind, blocks, acts)
  {
    Tree(ops, Lanes(ops, kind, blocks, acts, |blocks|))
  }

  ghost function MinTotal<F>(ops: Ops<F>, kind: Kind, blocks: seq<Bytes>, acts: seq<Act<F>>): F
    requires Paired(kind, blocks, acts)
  {
    Tree(ops, MinLanesAt(ops, kind, blocks, acts, |blocks|))
  }

  /** What one call of the one-row kernel returns. */
  ghost function RowValue<F>(ops: Ops<F>, kind: Kind, blocks: seq<Bytes>, acts: seq<Act<F>>): F
    requires Paired(kind, blocks, acts)
  {
    ops.add(Total(ops, kind, blocks, acts), MinTotal(ops, kind, blocks, acts))
  }

  // ----- lanes -----

  lemma IntsOf4<F>(v: seq<int>, block: Bytes, act: Act<F>)
    requires IsBlock(block) && act.Valid() && RowLanes(v, block, act.qs, 8)
    ensures v == BlockInts(Q4K, block, act)
  {
  }

  lemma IntsOf6<F>(v: seq<int>, block: Bytes, act: Act<F>)
    requires IsBlock6(block) && act.Valid() && Lanes6(v, Decoded(block), act.qs, act.bsums)
    ensures v == BlockInts(Q6K, block, act)
  {
  }

  lemma MinsOf4<F>(v: seq<int>, block: Bytes, act: Act<F>)
    requires IsBlock(block) && act.Valid() && MinLanes4(v, block, act.bsums)
    ensures v == BlockMins(block, act)
  {
  }

  // ----- the two reductions -----

  function AddPs<F>(ops: Ops<F>, a: seq<F>, b: seq<F>): (r: seq<F>)
    requires |a| == |b| == 4
    ensures |r| == 4
  {
    seq(4, (k: nat) requires k < 4 => ops.add(a[k], b[k]))
  }

  function MoveHighLow<F>(a: seq<F>, b: seq<F>): seq<F>
    requires |a| == |b| == 4
  {
    [b[2], b[3], a[2], a[3]]
  }

  function DuplicateOdd<F>(a: seq<F>): seq<F>
    requires |a| == 4
  {
    [a[1], a[1], a[3], a[3]]
  }

  /** `hadd_ps`: neighbours added. */
  function HaddPs<F>(ops: Ops<F>, a: seq<F>, b: seq<F>): seq<F>
    requires |a| == |b| == 4
  {
    [ops.add(a[0], a[1]), ops.add(a[2], a[3]), ops.add(b[0], b[1]), ops.add(b[2], b[3])]
  }

  /** The minimum lanes folded into the first. */
  method ReduceMin<F>(ops: Ops<F>, v: seq<F>) returns (r: F)
    requires |v| == 4
    ensures r == Tree(ops, v)
  {
    Tree4(ops, v);
    var w := AddPs(ops, v, MoveHighLow(v, v));
    r := ops.add(w[0], DuplicateOdd(w)[0]);
  }

  /** The several-row form: the register's halves added, then neighbours twice. */
  method ReduceHalves<F>(ops: Ops<F>, v: seq<F>) returns (r: F)
    requires |v| == 8
    ensures r == Tree(ops, v)
  {
    Tree8(ops, v);
    var halves := AddPs(ops, v[..4], v[4..]);
    var s := HaddPs(ops, halves, halves);
    r := HaddPs(ops, s, s)[0];
  }

  /** The one-row form: the lanes stored and added one by one, then the minimum. */
  method ReduceStored<F>(ops: Ops<F>, lanes: seq<F>, accM: seq<F>) returns (r: F)
    requires |lanes| == 8 && |accM| == 4
    ensures r == ops.add(Tree(ops, lanes), Tree(ops, accM))
  {
    Tree8(ops, lanes);
    var min := ReduceMin(ops, accM);
    var total := ops.add(ops.add(ops.add(lanes[0], lanes[4]), ops.add(lanes[1], lanes[5])),
                         ops.add(ops.add(lanes[2], lanes[6]), ops.add(lanes[3], lanes[7])));
    r := ops.add(total, min);
  }

  // ----- one row -----

  /** The integers of one block of either format. */
  method RowInts<F>(kind: Kind, block: Bytes, y: Act<F>) returns (sumi: seq<int>, prod: seq<int>)
    requires |block| == BlockSize(kind) && y.Valid()
    ensures sumi == BlockInts(kind, block, y) && (kind == Q4K ==> prod == BlockMins(block, y))
  {
    ActBounded(y);
    if kind == Q4K {
      var ms := Unpack(Scales(block));
      prod := RowMin(block, ms, y.bsums);
      MinsOf4(prod, block, y);
      sumi := RowBlock(block, ms, y.qs);
      IntsOf4(sumi, block, y);
    } else {
      prod := [];
      sumi := RowBlock6(block, y);
      IntsOf6(sumi, block, y);
    }
  }

  /** The one-row kernel. */
  method DotRow<F>(ops: Ops<F>, kind: Kind, blocks: seq<Bytes>, acts: seq<Act<F>>) returns (r: F)
    requires Paired(kind, blocks, acts)
    ensures r == RowValue(ops, kind, blocks, acts)
  {
    var acc, accM := Zeros(ops, 8), Zeros(ops, 4);
    for b := 0 to |blocks|
      invariant acc == Lanes(ops, kind, blocks, acts, b) && accM == MinLanesAt(ops, kind, blocks, acts, b)
    {
      var sumi, prod := RowInts(kind, blocks[b], acts[b]);
      if kind == Q4K {
        accM := FmaAll(ops, MinScale(ops, blocks[b], acts[b]), prod, accM);
      }
      acc := FmaAll(ops, BlockScale(ops, kind, blocks[b], acts[b]), sumi, acc);
    }
    r := ReduceStored(ops, acc, accM);
  }

  // ----- several rows to one weight walk -----

  /** The several activation rows. */
  ghost predicate AllPaired<F>(kind: Kind, blocks: seq<Bytes>, rows: seq<seq<Act<F>>>) {
    forall i | 0 <= i < |rows| :: Paired(kind, blocks, rows[i])
  }

  /** A row's lanes reduced the several-row way. */
  function Reduced<F>(ops: Ops<F>, kind: Kind, acc: seq<F>, mn: seq<F>): F
    requires |acc| == 8 && |mn| == 4
  {
    if kind == Q4K then ops.add(Tree(ops, acc), Tree(ops, mn)) else Tree(ops, acc)
  }

  /** What the several-row kernel returns for one row: q6_K adds no minimum. */
  ghost function TileValue<F>(ops: Ops<F>, kind: Kind, blocks: seq<Bytes>, acts: seq<Act<F>>): F
    requires Paired(kind, blocks, acts)
  {
    Reduced(ops, kind, Lanes(ops, kind, blocks, acts, |blocks|), MinLanesAt(ops, kind, blocks, acts, |blocks|))
  }

  /** One decoded run against every row. */
  method TileRun<F>(block: Bytes, ms: Bytes, ys: seq<Act<F>>, j: nat, sums: seq<seq<int>>) returns (r: seq<seq<int>>)
    requires IsBlock(block) && ms == Unpacked(Scales(block)) && j < 4 && |sums| == |ys|
    requires forall i | 0 <= i < |ys| :: ys[i].Valid() && RowLanes(sums[i], block, ys[i].qs, 2 * j)
    ensures |r| == |ys| && forall i | 0 <= i < |ys| :: ys[i].Valid() && RowLanes(r[i], block, ys[i].qs, 2 * j + 2)
  {
    var q4l, q4h := RunNibbles(block, j, 0), RunNibbles(block, j, 1);
    var scaleL, scaleH := Splat(Value(ms[2 * j])), Splat(Value(ms[2 * j + 1]));
    r := sums;
    for i := 0 to |ys|
      invariant |r| == |ys|
      invariant forall k | 0 <= k < i :: RowLanes(r[k], block, ys[k].qs, 2 * j + 2)
      invariant forall k | i <= k < |ys| :: r[k] == sums[k]
    {
      ActBounded(ys[i]);
      var sum := AddRun(block, ms, ys[i].qs, j, q4l, q4h, scaleL, scaleH, r[i]);
      r := r[i := sum];
    }
  }

  method TileBlock4<F>(block: Bytes, ms: Bytes, ys: seq<Act<F>>) returns (a: seq<seq<int>>)
    requires IsBlock(block) && ms == Unpacked(Scales(block)) && forall i | 0 <= i < |ys| :: ys[i].Valid()
    ensures |a| == |ys| && forall i | 0 <= i < |ys| :: ys[i].Valid() && a[i] == BlockInts(Q4K, block, ys[i])
  {
    a := seq(|ys|, _ => seq(8, _ => 0));
    forall i | 0 <= i < |ys| ensures RowLanes(a[i], block, ys[i].qs, 0) {
      Q4KRow.NothingYet(block, ys[i].qs);
    }
    for j := 0 to 4
      invariant |a| == |ys| && forall i | 0 <= i < |ys| :: RowLanes(a[i], block, ys[i].qs, 2 * j)
    {
      a := TileRun(block, ms, ys, j, a);
    }
    forall i | 0 <= i < |ys| ensures a[i] == BlockInts(Q4K, block, ys[i]) {
      IntsOf4(a[i], block, ys[i]);
    }
  }

  /** Two decoded runs against every row. */
  method TileRuns6<F>(block: Bytes, ys: seq<Act<F>>, j: nat, r: nat, run: nat, sums: seq<seq<int>>) returns (s: seq<seq<int>>)
    requires IsBlock6(block) && j < 2 && r < 3 && run == 4 * j + r && |sums| == |ys|
    requires forall i | 0 <= i < |ys| :: ys[i].Valid() && RunLanes(sums[i], Decoded(block), ys[i].qs, run)
    ensures |s| == |ys| && forall i | 0 <= i < |ys| :: ys[i].Valid() && RunLanes(s[i], Decoded(block), ys[i].qs, run + 2)
  {
    var ul, uh := RunWeights(block, j, r), RunWeights(block, j, r + 1);
    var wl, wh := RunScales(block, run), RunScales(block, run + 1);
    s := sums;
    for i := 0 to |ys|
      invariant |s| == |ys|
      invariant forall k | 0 <= k < i :: RunLanes(s[k], Decoded(block), ys[k].qs, run + 2)
      invariant forall k | i <= k < |ys| :: s[k] == sums[k]
    {
      ActBounded(ys[i]);
      var sum := AddRuns(block, ys[i].qs, j, r, run, ul, uh, wl, wh, s[i]);
      s := s[i := sum];
    }
  }

  method TileAllRuns6<F>(block: Bytes, ys: seq<Act<F>>) returns (a: seq<seq<int>>)
    requires IsBlock6(block) && forall i | 0 <= i < |ys| :: ys[i].Valid()
    ensures |a| == |ys| && forall i | 0 <= i < |ys| :: ys[i].Valid() && RunLanes(a[i], Decoded(block), ys[i].qs, 8)
  {
    a := seq(|ys|, _ => seq(8, _ => 0));
    forall i | 0 <= i < |ys| ensures RunLanes(a[i], Decoded(block), ys[i].qs, 0) {
      Q6KRow.NothingYet(Decoded(block), ys[i].qs);
    }
    var run: nat := 0;
    for j := 0 to 2
      invariant run == 4 * j && |a| == |ys|
      invariant forall i | 0 <= i < |ys| :: RunLanes(a[i], Decoded(block), ys[i].qs, run)
    {
      a := TileRuns6(block, ys, j, 0, run, a);
      a := TileRuns6(block, ys, j, 2, run + 2, a);
      run := run + 4;
    }
  }

  method TileOffsets<F>(block: Bytes, ys: seq<Act<F>>) returns (off: seq<seq<int>>)
    requires IsBlock6(block) && forall i | 0 <= i < |ys| :: ys[i].Valid()
    ensures |off| == |ys| && forall i | 0 <= i < |ys| :: ys[i].Valid() && Offsets(off[i], Decoded(block), ys[i].bsums)
  {
    off := [];
    for i := 0 to |ys|
      invariant |off| == i && forall k | 0 <= k < i :: Offsets(off[k], Decoded(block), ys[k].bsums)
    {
      ActBounded(ys[i]);
      var o := BlockOffset(block, ys[i].bsums);
      off := off + [o];
    }
  }

  method TileBlock6<F>(block: Bytes, ys: seq<Act<F>>) returns (a: seq<seq<int>>)
    requires IsBlock6(block) && forall i | 0 <= i < |ys| :: ys[i].Valid()
    ensures |a| == |ys| && forall i | 0 <= i < |ys| :: ys[i].Valid() && a[i] == BlockInts(Q6K, block, ys[i])
  {
    var off := TileOffsets(block, ys);
    var sums := TileAllRuns6(block, ys);
    a := [];
    for i := 0 to |ys|
      invariant |a| == i && forall k | 0 <= k < i :: a[k] == BlockInts(Q6K, block, ys[k])
    {
      var v := SubtractOffset(sums[i], off[i], Decoded(block), ys[i]);
      IntsOf6(v, block, ys[i]);
      a := a + [v];
    }
  }

  /** Every row's lanes after `n` blocks. */
  ghost predicate AllLanes<F>(acc: seq<seq<F>>, mn: seq<seq<F>>, ops: Ops<F>, kind: Kind, blocks: seq<Bytes>, rows: seq<seq<Act<F>>>,
                              n: nat)
    requires AllPaired(kind, blocks, rows) && n <= |blocks|
  {
    && |acc| == |mn| == |rows|
    && (forall i | 0 <= i < |rows| :: acc[i] == Lanes(ops, kind, blocks, rows[i], n))
    && forall i | 0 <= i < |rows| :: mn[i] == MinLanesAt(ops, kind, blocks, rows[i], n)
  }

  /** Block `b` of every row. */
  function Column<F>(rows: seq<seq<Act<F>>>, b: nat): (ys: seq<Act<F>>)
    requires forall i | 0 <= i < |rows| :: b < |rows[i]|
    ensures |ys| == |rows|
  {
    seq(|rows|, (i: nat) requires i < |rows| => rows[i][b])
  }

  method TileMins<F>(block: Bytes, ms: Bytes, ys: seq<Act<F>>) returns (prods: seq<seq<int>>)
    requires IsBlock(block) && ms == Unpacked(Scales(block)) && forall i | 0 <= i < |ys| :: ys[i].Valid()
    ensures |prods| == |ys| && forall i | 0 <= i < |ys| :: ys[i].Valid() && prods[i] == BlockMins(block, ys[i])
  {
    prods := [];
    for i := 0 to |ys|
      invariant |prods| == i && forall k | 0 <= k < i :: prods[k] == BlockMins(block, ys[k])
    {
      ActBounded(ys[i]);
      var prod := RowMin(block, ms, ys[i].bsums);
      MinsOf4(prod, block, ys[i]);
      prods := prods + [prod];
    }
  }

  /** The integers of one block for every row, each weight decoded once. */
  method TileInts<F>(kind: Kind, block: Bytes, ys: seq<Act<F>>) returns (a: seq<seq<int>>, prods: seq<seq<int>>)
    requires |block| == BlockSize(kind) && forall i | 0 <= i < |ys| :: ys[i].Valid()
    ensures |a| == |ys| && forall i | 0 <= i < |ys| :: ys[i].Valid() && a[i] == BlockInts(kind, block, ys[i])
    ensures kind == Q4K ==> |prods| == |ys| && forall i | 0 <= i < |ys| :: ys[i].Valid() && prods[i] == BlockMins(block, ys[i])
  {
    if kind == Q4K {
      var ms := Unpack(Scales(block));
      prods := TileMins(block, ms, ys);
      a := TileBlock4(block, ms, ys);
    } else {
      prods := [];
      a := TileBlock6(block, ys);
    }
  }

  /** One fused multiply-add per row. */
  method TileFma<F>(ops: Ops<F>, scales: seq<F>, v: seq<seq<int>>, acc: seq<seq<F>>) returns (r: seq<seq<F>>)
    requires |scales| == |v| == |acc| && forall i | 0 <= i < |v| :: |v[i]| == |acc[i]|
    ensures |r| == |acc| && forall i | 0 <= i < |v| :: r[i] == FmaAll(ops, scales[i], v[i], acc[i])
  {
    r := acc;
    for i := 0 to |v|
      invariant |r| == |acc| && forall k | i <= k < |v| :: r[k] == acc[k]
      invariant forall k | 0 <= k < i :: r[k] == FmaAll(ops, scales[k], v[k], acc[k])
    {
      r := r[i := FmaAll(ops, scales[i], v[i], r[i])];
    }
  }

  /** One block of the weight walk. */
  method TileBlock<F>(ops: Ops<F>, kind: Kind, blocks: seq<Bytes>, rows: seq<seq<Act<F>>>, b: nat, acc: seq<seq<F>>, mn: seq<seq<F>>)
    returns (acc': seq<seq<F>>, mn': seq<seq<F>>)
    requires AllPaired(kind, blocks, rows) && b < |blocks| && |blocks[b]| == BlockSize(kind)
    requires AllLanes(acc, mn, ops, kind, blocks, rows, b)
    ensures AllLanes(acc', mn', ops, kind, blocks, rows, b + 1)
  {
    var block, ys := blocks[b], Column(rows, b);
    var a, prods := TileInts(kind, block, ys);
    mn' := mn;
    if kind == Q4K {
      mn' := TileFma(ops, seq(|ys|, (i: nat) requires i < |ys| => MinScale(ops, block, ys[i])), prods, mn);
    }
    acc' := TileFma(ops, seq(|ys|, (i: nat) requires i < |ys| => BlockScale(ops, kind, block, ys[i])), a, acc);
    forall i | 0 <= i < |rows|
      ensures acc'[i] == Lanes(ops, kind, blocks, rows[i], b + 1) && mn'[i] == MinLanesAt(ops, kind, blocks, rows[i], b + 1)
    {
      LanesNext(ops, kind, blocks, rows[i], b, acc[i], mn[i]);
    }
  }

  lemma LanesNext<F>(ops: Ops<F>, kind: Kind, blocks: seq<Bytes>, acts: seq<Act<F>>, b: nat, acc: seq<F>, mn: seq<F>)
    requires Paired(kind, blocks, acts) && b < |blocks|
    requires acc == Lanes(ops, kind, blocks, acts, b) && mn == MinLanesAt(ops, kind, blocks, acts, b)
    ensures Lanes(ops, kind, blocks, acts, b + 1)
         == FmaAll(ops, BlockScale(ops, kind, blocks[b], acts[b]), BlockInts(kind, blocks[b], acts[b]), acc)
    ensures MinLanesAt(ops, kind, blocks, acts, b + 1)
         == if kind == Q4K then FmaAll(ops, MinScale(ops, blocks[b], acts[b]), BlockMins(blocks[b], acts[b]), mn) else mn
  {
  }

  /** One horizontal reduction per row. */
  method ReduceRows<F>(ops: Ops<F>, kind: Kind, acc: seq<seq<F>>, mn: seq<seq<F>>) returns (out: seq<F>)
    requires |acc| == |mn| && forall i | 0 <= i < |acc| :: |acc[i]| == 8 && |mn[i]| == 4
    ensures |out| == |acc| && forall i | 0 <= i < |acc| :: out[i] == Reduced(ops, kind, acc[i], mn[i])
  {
    out := [];
    for i := 0 to |acc|
      invariant |out| == i && forall k | 0 <= k < i :: out[k] == Reduced(ops, kind, acc[k], mn[k])
    {
      var total := ReduceHalves(ops, acc[i]);
      if kind == Q4K {
        var am := ReduceMin(ops, mn[i]);
        total := ops.add(total, am);
      }
      out := out + [total];
    }
  }

  /** Main result: whatever the float operations are, the several-row kernel builds for
      each q4_K row the very tree the one-row kernel builds -- same lanes, same block
      order, same reduction -- and for q6_K that tree without its last addition. */
  method DotRows<F>(ops: Ops<F>, kind: Kind, blocks: seq<Bytes>, rows: seq<seq<Act<F>>>) returns (out: seq<F>)
    requires AllPaired(kind, blocks, rows) && forall b | 0 <= b < |blocks| :: |blocks[b]| == BlockSize(kind)
    ensures |out| == |rows| && forall i | 0 <= i < |rows| :: out[i] == TileValue(ops, kind, blocks, rows[i])
  {
    var acc, mn := seq(|rows|, _ => Zeros(ops, 8)), seq(|rows|, _ => Zeros(ops, 4));
    for b := 0 to |blocks|
      invariant AllLanes(acc, mn, ops, kind, blocks, rows, b)
    {
      acc, mn := TileBlock(ops, kind, blocks, rows, b, acc, mn);
    }
    out := ReduceRows(ops, kind, acc, mn);
  }

  // ----- the two kernels agree -----

  /** What signed zeros guarantee, for a predicate `P` that holds of every value but
      minus zero: sums start at plus zero; a fused multiply-add by an integer onto a
      value of `P` cannot give minus zero, since anything it rounds is a multiple of
      the least subnormal; neither can a sum of two; and adding plus zero changes
      nothing else. */
  ghost predicate ZeroLaws<F(!new)>(ops: Ops<F>, P: F -> bool) {
    && P(ops.zero)
    && (forall a: F, i: int, c: F :: FmaLaw(ops, P, a, i, c))
    && (forall a: F, b: F :: AddLaw(ops, P, a, b))
    && (forall a: F | P(a) :: ops.add(a, ops.zero) == a)
  }

  ghost predicate FmaLaw<F>(ops: Ops<F>, P: F -> bool, a: F, i: int, c: F) { P(c) ==> P(ops.fma(a, ops.ofInt(i), c)) }
  ghost predicate AddLaw<F>(ops: Ops<F>, P: F -> bool, a: F, b: F) { P(a) && P(b) ==> P(ops.add(a, b)) }

  ghost predicate AllP<F(!new)>(P: F -> bool, v: seq<F>) {
    forall x | x in v :: P(x)
  }

  lemma FmaKeeps<F(!new)>(ops: Ops<F>, P: F -> bool, scale: F, ints: seq<int>, acc: seq<F>)
    requires ZeroLaws(ops, P) && |ints| == |acc| && AllP(P, acc)
    ensures AllP(P, FmaAll(ops, scale, ints, acc))
  {
    var r := FmaAll(ops, scale, ints, acc);
    forall x | x in r ensures P(x) {
      var k :| 0 <= k < |r| && r[k] == x;
      assert acc[k] in acc;
      assert FmaLaw(ops, P, scale, ints[k], acc[k]);
    }
  }

  /** The lanes of any walk: one scale and eight integers a block. */
  function Walk<F>(ops: Ops<F>, scales: seq<F>, ints: seq<seq<int>>, n: nat): (v: seq<F>)
    requires n <= |scales| == |ints| && forall b | 0 <= b < |ints| :: |ints[b]| == 8
    ensures |v| == 8
  {
    if n == 0 then Zeros(ops, 8) else FmaAll(ops, scales[n - 1], ints[n - 1], Walk(ops, scales, ints, n - 1))
  }

  /** No lane is ever minus zero. */
  lemma {:induction false} WalkKeeps<F(!new)>(ops: Ops<F>, P: F -> bool, scales: seq<F>, ints: seq<seq<int>>, n: nat)
    requires ZeroLaws(ops, P) && n <= |scales| == |ints| && forall b | 0 <= b < |ints| :: |ints[b]| == 8
    ensures AllP(P, Walk(ops, scales, ints, n))
  {
    if n > 0 {
      WalkKeeps(ops, P, scales, ints, n - 1);
      FmaKeeps(ops, P, scales[n - 1], ints[n - 1], Walk(ops, scales, ints, n - 1));
    }
  }

  lemma {:induction false} LanesAreWalk<F>(ops: Ops<F>, kind: Kind, blocks: seq<Bytes>, acts: seq<Act<F>>, scales: seq<F>,
                                           ints: seq<seq<int>>, n: nat)
    requires Paired(kind, blocks, acts) && n <= |blocks| == |scales| == |ints|
    requires forall b | 0 <= b < |blocks| :: scales[b] == BlockScale(ops, kind, blocks[b], acts[b])
    requires forall b | 0 <= b < |blocks| :: |ints[b]| == 8 && ints[b] == BlockInts(kind, blocks[b], acts[b])
    ensures Lanes(ops, kind, blocks, acts, n) == Walk(ops, scales, ints, n)
  {
    if n > 0 { LanesAreWalk(ops, kind, blocks, acts, scales, ints, n - 1); }
  }

  /** So neither is their sum. */
  lemma TotalKeeps<F(!new)>(ops: Ops<F>, P: F -> bool, kind: Kind, blocks: seq<Bytes>, acts: seq<Act<F>>)
    requires Paired(kind, blocks, acts) && ZeroLaws(ops, P)
    ensures P(Total(ops, kind, blocks, acts))
  {
    var scales := seq(|blocks|, (b: nat) requires b < |blocks| && Paired(kind, blocks, acts) => BlockScale(ops, kind, blocks[b], acts[b]));
    var ints := seq(|blocks|, (b: nat) requires b < |blocks| && Paired(kind, blocks, acts) => BlockInts(kind, blocks[b], acts[b]));
    LanesAreWalk(ops, kind, blocks, acts, scales, ints, |blocks|);
    WalkKeeps(ops, P, scales, ints, |blocks|);
    TreeKeeps(ops, P, Walk(ops, scales, ints, |blocks|));
  }

  lemma TreeKeeps<F(!new)>(ops: Ops<F>, P: F -> bool, v: seq<F>)
    requires ZeroLaws(ops, P) && |v| == 8 && AllP(P, v)
    ensures P(Tree(ops, v))
  {
    Tree8(ops, v);
    assert forall k | 0 <= k < 8 :: v[k] in v;
    var a, b := ops.add(v[0], v[4]), ops.add(v[1], v[5]);
    var c, d := ops.add(v[2], v[6]), ops.add(v[3], v[7]);
    assert AddLaw(ops, P, v[0], v[4]) && AddLaw(ops, P, v[1], v[5]) && AddLaw(ops, P, v[2], v[6]) && AddLaw(ops, P, v[3], v[7]);
    assert AddLaw(ops, P, a, b) && AddLaw(ops, P, c, d) && AddLaw(ops, P, ops.add(a, b), ops.add(c, d));
  }

  /** The four zeros the one-row kernel folds into a q6_K row are one zero. */
  lemma ZerosFold<F(!new)>(ops: Ops<F>, P: F -> bool)
    requires ZeroLaws(ops, P)
    ensures Tree(ops, Zeros(ops, 4)) == ops.zero
  {
    Tree4(ops, Zeros(ops, 4));
  }

  /** Main result: the several-row kernel gives the one-row kernel's value, bit for bit:
      for q4_K under any float operations, for q6_K under those whose zeros behave. */
  lemma TileIsRow<F(!new)>(ops: Ops<F>, P: F -> bool, kind: Kind, blocks: seq<Bytes>, acts: seq<Act<F>>)
    requires Paired(kind, blocks, acts) && (kind == Q6K ==> ZeroLaws(ops, P))
    ensures TileValue(ops, kind, blocks, acts) == RowValue(ops, kind, blocks, acts)
  {
    if kind == Q6K {
      TotalKeeps(ops, P, kind, blocks, acts);
      ZerosFold(ops, P);
    }
  }
}
