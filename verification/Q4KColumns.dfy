/** A whole column: scales, minima, the float accumulators, and the matrix-vector
    product over every panel. */
module Q4KColumns {
  import opened Arith
  import opened Q4KBlock
  import opened Q4KPanel
  import opened Simd
  import opened Q4KGemv

  // ----- one group, scaled -----

  /** Bytes widened to int16 lanes. */
  function Widen(v: Bytes): (r: seq<int>)
    ensures |r| == |v|
  {
    seq(|v|, (i: nat) requires i < |v| => Value(v[i]))
  }

  function Value(b: bv8): int { b as int }

  /** The unpacked bytes hold group `g` of the eight columns. */
  ghost predicate GroupBytes(ms: Bytes, cols: seq<Bytes>, g: nat)
    requires Columns(cols) && g < 8
  {
    |ms| == 16 && forall c: nat | c < 8 :: ColumnHolds(ms, cols[c], c, g)
  }

  function ScaleLanes(ms: Bytes): (r: seq<int>)
    requires |ms| == 16
    ensures |r| == 16
  {
    Widen(ShuffleBytes(ms, SCALE_MASK))
  }

  lemma ScaleLaneIs(ms: Bytes, cols: seq<Bytes>, g: nat, d: nat, h: nat)
    requires Columns(cols) && g < 8 && GroupBytes(ms, cols, g) && d < 8 && h < 2
    ensures ScaleLanes(ms)[2 * d + h] == Scale(cols[Order(d)], g)
  {
    ScaleLane(d, h);
    assert ColumnHolds(ms, cols[Order(d)], Order(d), g);
  }

  /** Group `g` of a block times its scale. */
  function ScaledGroup(block: Bytes, qs: seq<int>, g: nat): int
    requires IsBlock(block) && |qs| == 256 && g < 8
  {
    GroupDot(block, qs, g, 32) * Scale(block, g)
  }

  lemma GroupBound(block: Bytes, qs: seq<int>, g: nat)
    requires IsBlock(block) && Int8(qs) && g < 8
    ensures -3870720 <= ScaledGroup(block, qs, g) <= 3870720
  {
    LaneBound(block, qs, g, 0, 8);
    LaneBound(block, qs, g, 1, 8);
    LanesAreGroup(block, qs, g, 8);
    ScaledBound(Scale(block, g), GroupDot(block, qs, g, 32), 61440);
  }

  lemma Distribute(a: int, b: int, s: int)
    ensures a * s + b * s == (a + b) * s
  {
  }

  /** After the one `madd`, dword `d` is the scaled group of column `Order(d)`. */
  lemma ScaledDword(iacc: seq<int>, scales: seq<int>, cols: seq<Bytes>, qs: seq<int>, g: nat, d: nat)
    requires Columns(cols) && Int8(qs) && g < 8 && d < 8 && LanesHold(iacc, cols, qs, g, 8) && |scales| == 16
    requires scales[2 * d] == Scale(cols[Order(d)], g) && scales[2 * d + 1] == Scale(cols[Order(d)], g)
    ensures Madd16(iacc, scales)[d] == ScaledGroup(cols[Order(d)], qs, g)
  {
    var block := cols[Order(d)];
    assert LaneHolds(iacc, cols, qs, g, 8, d, 0) && LaneHolds(iacc, cols, qs, g, 8, d, 1);
    var a, b, s := iacc[2 * d], iacc[2 * d + 1], Scale(block, g);
    LanesAreGroup(block, qs, g, 8);
    Distribute(a, b, s);
    GroupBound(block, qs, g);
    MaddLane(iacc, scales, d, a, s, b, s);
  }

  ghost predicate Scaled(v: seq<int>, cols: seq<Bytes>, qs: seq<int>, g: nat)
    requires Columns(cols) && |qs| == 256 && g < 8
  {
    |v| == 8 && forall d: nat | d < 8 :: v[d] == ScaledGroup(cols[Order(d)], qs, g)
  }

  lemma ScaledAll(iacc: seq<int>, ms: Bytes, cols: seq<Bytes>, qs: seq<int>, g: nat)
    requires Columns(cols) && Int8(qs) && g < 8 && LanesHold(iacc, cols, qs, g, 8) && GroupBytes(ms, cols, g)
    ensures Scaled(Madd16(iacc, ScaleLanes(ms)), cols, qs, g)
  {
    var v, scales := Madd16(iacc, ScaleLanes(ms)), ScaleLanes(ms);
    forall d: nat | d < 8 ensures v[d] == ScaledGroup(cols[Order(d)], qs, g) {
      ScaleLaneIs(ms, cols, g, d, 0);
      ScaleLaneIs(ms, cols, g, d, 1);
      ScaledDword(iacc, scales, cols, qs, g, d);
    }
  }

  // ----- the minima -----

  /** Neighbouring activation sums added: lane `g` is the sum over group `g`. */
  function GroupSums(bsums: seq<int>): (r: seq<int>)
    requires |bsums| == 16
    ensures |r| == 8
  {
    Hadd16(bsums[..8], bsums[8..])
  }

  ghost predicate SumsBounded(bsums: seq<int>) {
    |bsums| == 16 && forall i | 0 <= i < 16 :: -2048 <= bsums[i] <= 2032
  }

  lemma ActBounded<F>(act: Act<F>)
    requires act.Valid()
    ensures Int8(act.qs) && SumsBounded(act.bsums)
  {
    forall i: nat | i < 16 ensures -2048 <= act.bsums[i] <= 2032 {
      SumRunBound(act.qs, 16 * i, 16);
    }
  }

  lemma GroupSumIs(bsums: seq<int>, g: nat)
    requires SumsBounded(bsums) && g < 8
    ensures GroupSums(bsums)[g] == bsums[2 * g] + bsums[2 * g + 1] && -4096 <= GroupSums(bsums)[g] <= 4064
  {
    NoWrap(bsums[2 * g] + bsums[2 * g + 1]);
  }

  /** The minima of two groups side by side, column by column. */
  function MinLanes(ms0: Bytes, ms1: Bytes): (r: seq<int>)
    requires |ms0| == 16 && |ms1| == 16
    ensures |r| == 16
  {
    Widen(UnpackLow(ShuffleDwords(ms0, 78), ShuffleDwords(ms1, 78)))
  }

  lemma Swap64<T>(v: seq<T>, c: nat)
    requires |v| == 16 && c < 8
    ensures ShuffleDwords(v, 78)[c] == v[8 + c]
  {
    assert Pick(78, c % 16 / 4) == 2 + c / 4;
    assert ShuffleFrom(78, c) == 8 + c;
  }

  lemma UnpackAt<T>(a: seq<T>, b: seq<T>, c: nat)
    requires |a| == 16 && |b| == 16 && c < 8
    ensures UnpackLow(a, b)[2 * c] == a[c] && UnpackLow(a, b)[2 * c + 1] == b[c]
  {
  }

  lemma MinLaneByte(ms0: Bytes, ms1: Bytes, c: nat)
    requires |ms0| == 16 && |ms1| == 16 && c < 8
    ensures MinLanes(ms0, ms1)[2 * c] == Value(ms0[8 + c]) && MinLanes(ms0, ms1)[2 * c + 1] == Value(ms1[8 + c])
  {
    Swap64(ms0, c);
    Swap64(ms1, c);
    UnpackAt(ShuffleDwords(ms0, 78), ShuffleDwords(ms1, 78), c);
  }

  /** Lanes `2 * c` and `2 * c + 1` are column `c`'s minima of groups `g` and
      `g + 1`. */
  ghost predicate MinsAre(lanes: seq<int>, cols: seq<Bytes>, g: nat)
    requires Columns(cols) && g + 1 < 8
  {
    |lanes| == 16 && forall c: nat | c < 8 :: MinPair(lanes, cols, g, c)
  }

  ghost predicate MinPair(lanes: seq<int>, cols: seq<Bytes>, g: nat, c: nat)
    requires Columns(cols) && g + 1 < 8 && c < 8 && |lanes| == 16
  {
    lanes[2 * c] == Minimum(cols[c], g) && lanes[2 * c + 1] == Minimum(cols[c], g + 1)
  }

  lemma MinsOf(ms0: Bytes, ms1: Bytes, cols: seq<Bytes>, g: nat)
    requires Columns(cols) && g + 1 < 8 && GroupBytes(ms0, cols, g) && GroupBytes(ms1, cols, g + 1)
    ensures MinsAre(MinLanes(ms0, ms1), cols, g)
  {
    forall c: nat | c < 8 ensures MinPair(MinLanes(ms0, ms1), cols, g, c) {
      MinLaneByte(ms0, ms1, c);
      MinByte(ms0, cols, g, c);
      MinByte(ms1, cols, g + 1, c);
    }
  }

  lemma MinByte(ms: Bytes, cols: seq<Bytes>, g: nat, c: nat)
    requires Columns(cols) && g < 8 && GroupBytes(ms, cols, g) && c < 8
    ensures Value(ms[8 + c]) == Minimum(cols[c], g)
  {
    assert ColumnHolds(ms, cols[c], c, g);
  }

  /** The first pair of lanes, repeated. */
  function FirstPair(q: seq<int>): (r: seq<int>)
    requires |q| >= 2
    ensures |r| == 16
  {
    seq(16, (i: nat) => q[i % 2])
  }

  ghost predicate Mins(v: seq<int>, cols: seq<Bytes>, bsums: seq<int>, n: nat)
    requires Columns(cols) && |bsums| == 16 && n <= 8
  {
    |v| == 8 && forall c: nat | c < 8 :: v[c] == BlockMin(cols[c], bsums, n)
  }

  /** The sum over group `g` times its minimum. */
  function MinGroup(block: Bytes, bsums: seq<int>, g: nat): int
    requires IsBlock(block) && |bsums| == 16 && g < 8
  {
    (bsums[2 * g] + bsums[2 * g + 1]) * Minimum(block, g)
  }

  lemma MinGroupBound(block: Bytes, bsums: seq<int>, g: nat)
    requires IsBlock(block) && SumsBounded(bsums) && g < 8
    ensures -258048 <= MinGroup(block, bsums, g) <= 258048
  {
    ScaledBound(Minimum(block, g), bsums[2 * g] + bsums[2 * g + 1], 4096);
  }

  lemma {:induction false} BlockMinBound(block: Bytes, bsums: seq<int>, n: nat)
    requires IsBlock(block) && SumsBounded(bsums) && n <= 8
    ensures -258048 * n <= BlockMin(block, bsums, n) <= 258048 * n
  {
    if n > 0 {
      BlockMinBound(block, bsums, n - 1);
      MinGroupBound(block, bsums, n - 1);
      assert BlockMin(block, bsums, n) == BlockMin(block, bsums, n - 1) + MinGroup(block, bsums, n - 1);
    }
  }

  /** Two more terms, in range. */
  lemma AddTwo(acc: int, v: int, x: int, y: int, total: int)
    requires v == x + y && total == acc + x + y && Fits32(total)
    ensures Wrap32(acc + v) == total
  {
    NoWrap(total);
  }

  lemma MinColumn(acc: int, pairs: seq<int>, lanes: seq<int>, block: Bytes, bsums: seq<int>, g: nat, c: nat)
    requires IsBlock(block) && SumsBounded(bsums) && g + 1 < 8 && c < 8 && |pairs| == |lanes| == 16
    requires pairs[2 * c] == bsums[2 * g] + bsums[2 * g + 1] && pairs[2 * c + 1] == bsums[2 * g + 2] + bsums[2 * g + 3]
    requires lanes[2 * c] == Minimum(block, g) && lanes[2 * c + 1] == Minimum(block, g + 1)
    requires acc == BlockMin(block, bsums, g)
    ensures Wrap32(acc + Madd16(pairs, lanes)[c]) == BlockMin(block, bsums, g + 2)
  {
    MinGroupBound(block, bsums, g);
    MinGroupBound(block, bsums, g + 1);
    var x, y := MinGroup(block, bsums, g), MinGroup(block, bsums, g + 1);
    MaddLane(pairs, lanes, c, pairs[2 * c], lanes[2 * c], pairs[2 * c + 1], lanes[2 * c + 1]);
    BlockMinBound(block, bsums, g + 2);
    assert BlockMin(block, bsums, g + 1) == acc + x;
    AddTwo(acc, Madd16(pairs, lanes)[c], x, y, BlockMin(block, bsums, g + 2));
  }

  lemma MinStep(acc: seq<int>, pairs: seq<int>, lanes: seq<int>, cols: seq<Bytes>, bsums: seq<int>, g: nat)
    requires Columns(cols) && SumsBounded(bsums) && g + 1 < 8 && MinsAre(lanes, cols, g) && |pairs| == 16
    requires forall c: nat | c < 8 :: pairs[2 * c] == bsums[2 * g] + bsums[2 * g + 1]
                                   && pairs[2 * c + 1] == bsums[2 * g + 2] + bsums[2 * g + 3]
    requires Mins(acc, cols, bsums, g)
    ensures Mins(Add32(acc, Madd16(pairs, lanes)), cols, bsums, g + 2)
  {
    var v := Madd16(pairs, lanes);
    var r := Add32(acc, v);
    forall c: nat | c < 8 ensures r[c] == BlockMin(cols[c], bsums, g + 2) {
      assert MinPair(lanes, cols, g, c);
      MinColumn(acc[c], pairs, lanes, cols[c], bsums, g, c);
      assert r[c] == Wrap32(acc[c] + v[c]);
    }
  }

  // ----- one super-block of eight columns -----

  ghost predicate Dots(v: seq<int>, cols: seq<Bytes>, qs: seq<int>, n: nat)
    requires Columns(cols) && |qs| == 256 && n <= 8
  {
    |v| == 8 && forall d: nat | d < 8 :: v[d] == BlockDot(cols[Order(d)], qs, n)
  }

  lemma {:induction false} BlockDotBound(block: Bytes, qs: seq<int>, n: nat)
    requires IsBlock(block) && Int8(qs) && n <= 8
    ensures -3870720 * n <= BlockDot(block, qs, n) <= 3870720 * n
  {
    if n > 0 {
      BlockDotBound(block, qs, n - 1);
      GroupBound(block, qs, n - 1);
      assert BlockDot(block, qs, n) == BlockDot(block, qs, n - 1) + ScaledGroup(block, qs, n - 1);
    }
  }

  lemma DotColumn(acc: int, v0: int, v1: int, block: Bytes, qs: seq<int>, g: nat)
    requires IsBlock(block) && Int8(qs) && g + 1 < 8 && acc == BlockDot(block, qs, g)
    requires v0 == ScaledGroup(block, qs, g) && v1 == ScaledGroup(block, qs, g + 1)
    ensures Wrap32(acc + Wrap32(v0 + v1)) == BlockDot(block, qs, g + 2)
  {
    GroupBound(block, qs, g);
    GroupBound(block, qs, g + 1);
    BlockDotBound(block, qs, g + 2);
    NoWrap(v0 + v1);
    assert BlockDot(block, qs, g + 1) == acc + v0;
    AddTwo(acc, v0 + v1, v0, v1, BlockDot(block, qs, g + 2));
  }

  lemma DotStep(acc: seq<int>, v0: seq<int>, v1: seq<int>, cols: seq<Bytes>, qs: seq<int>, g: nat)
    requires Columns(cols) && Int8(qs) && g + 1 < 8 && Dots(acc, cols, qs, g)
    requires Scaled(v0, cols, qs, g) && Scaled(v1, cols, qs, g + 1)
    ensures Dots(Add32(acc, Add32(v0, v1)), cols, qs, g + 2)
  {
    var r := Add32(acc, Add32(v0, v1));
    forall d: nat | d < 8 ensures r[d] == BlockDot(cols[Order(d)], qs, g + 2) {
      DotColumn(acc[d], v0[d], v1[d], cols[Order(d)], qs, g);
      assert r[d] == Wrap32(acc[d] + Wrap32(v0[d] + v1[d]));
    }
  }

  /** The scales and minima of group `g` of the eight columns. */
  method RunBytes(o: Panel, ghost cols: seq<Bytes>, g: nat) returns (ms: Bytes)
    requires Columns(cols) && |o.scales| == 96 && g < 8 && RunHolds(o.scales, cols, g)
    ensures GroupBytes(ms, cols, g)
  {
    ms := Unpack(o.scales[12 * g..12 * g + 12]);
  }

  /** The two groups of run `sb`: sixteen `maddubs`, two `madd`s, added to `dots`. */
  method AddDots(o: Panel, ghost cols: seq<Bytes>, qs: seq<int>, sb: nat, ms0: Bytes, ms1: Bytes, dots: seq<int>)
    returns (r: seq<int>)
    requires Columns(cols) && QuantsOf(o.qs, cols) && Int8(qs) && sb < 4
    requires GroupBytes(ms0, cols, 2 * sb) && GroupBytes(ms1, cols, 2 * sb + 1) && Dots(dots, cols, qs, 2 * sb)
    ensures Dots(r, cols, qs, 2 * sb + 2)
  {
    var iacc0 := SubBlock(o.qs, cols, qs, sb, 0);
    var iacc1 := SubBlock(o.qs, cols, qs, sb, 1);
    ScaledAll(iacc0, ms0, cols, qs, 2 * sb);
    ScaledAll(iacc1, ms1, cols, qs, 2 * sb + 1);
    var v0, v1 := Madd16(iacc0, ScaleLanes(ms0)), Madd16(iacc1, ScaleLanes(ms1));
    DotStep(dots, v0, v1, cols, qs, 2 * sb);
    r := Add32(dots, Add32(v0, v1));
  }

  /** The sums still to be used have been shifted to the front. */
  ghost predicate Shifted(q8s: seq<int>, bsums: seq<int>, g: nat)
    requires |bsums| == 16
  {
    |q8s| == 8 && forall i: nat, j: nat | j < 8 && i + g == j :: q8s[i] == GroupSums(bsums)[j]
  }

  method AddMins(ghost cols: seq<Bytes>, ghost bsums: seq<int>, ghost g: nat, ms0: Bytes, ms1: Bytes, mins: seq<int>, q8s: seq<int>)
    returns (r: seq<int>, q: seq<int>)
    requires Columns(cols) && SumsBounded(bsums) && g + 1 < 8 && GroupBytes(ms0, cols, g) && GroupBytes(ms1, cols, g + 1)
    requires Mins(mins, cols, bsums, g) && Shifted(q8s, bsums, g)
    ensures Mins(r, cols, bsums, g + 2) && Shifted(q, bsums, g + 2)
  {
    GroupSumIs(bsums, g);
    GroupSumIs(bsums, g + 1);
    assert q8s[0] == GroupSums(bsums)[g] && q8s[1] == GroupSums(bsums)[g + 1];
    MinsOf(ms0, ms1, cols, g);
    var pairs, lanes := FirstPair(q8s), MinLanes(ms0, ms1);
    MinStep(mins, pairs, lanes, cols, bsums, g);
    r := Add32(mins, Madd16(pairs, lanes));
    q := q8s[2..] + [0, 0];
    forall i: nat, j: nat | j < 8 && i + (g + 2) == j ensures q[i] == GroupSums(bsums)[j] {
      assert q8s[i + 2] == GroupSums(bsums)[j];
    }
  }

  /** The integer part of one panel against one activation block: every lane is the
      exact integer the original block of its column contributes. */
  method PanelBlock<F>(o: Panel, ghost cols: seq<Bytes>, act: Act<F>) returns (dots: seq<int>, mins: seq<int>)
    requires Columns(cols) && IsPanelOf(o, cols) && act.Valid()
    ensures Dots(dots, cols, act.qs, 8) && Mins(mins, cols, act.bsums, 8)
  {
    ActBounded(act);
    dots, mins := seq(8, _ => 0), seq(8, _ => 0);
    var q8s := GroupSums(act.bsums);
    for sb := 0 to 4
      invariant Dots(dots, cols, act.qs, 2 * sb) && Mins(mins, cols, act.bsums, 2 * sb)
      invariant Shifted(q8s, act.bsums, 2 * sb)
    {
      var ms0 := RunBytes(o, cols, 2 * sb);
      var ms1 := RunBytes(o, cols, 2 * sb + 1);
      dots := AddDots(o, cols, act.qs, sb, ms0, ms1, dots);
      mins, q8s := AddMins(cols, act.bsums, 2 * sb, ms0, ms1, mins, q8s);
    }
  }
}
