/** The weights as the format decodes them, one at a time, against the integers the
    kernels accumulate: over the reals, a block's dot product is the same number. */
module Dequant {
  import opened Q4KBlock
  import opened Q4KColumns
  import opened Q6KBlock

  lemma {:induction false} CastUp(x: int, y: nat)
    ensures (x * y) as real == x as real * y as real
  {
    if y > 0 {
      CastUp(x, y - 1);
      assert x * y == x * (y - 1) + x;
    }
  }

  lemma Cast(x: int, y: int)
    ensures (x * y) as real == x as real * y as real
  {
    if y >= 0 {
      CastUp(x, y);
    } else {
      CastUp(x, -y);
      assert x * y == -(x * -y);
    }
  }

  // ----- q4_K -----

  /** A weight, its group's scale and minimum already multiplied by the block's two
      halves: `d * scale * q - dmin * minimum`. */
  function Value4(ds: real, dm: real, q: int): real { ds * q as real - dm }

  function Weighted4(ds: real, dm: real, q: int, a: int): real { Value4(ds, dm, q) * a as real }

  /** The decoded weights of group `g` below `n` against their activations. */
  function GroupReal(block: Bytes, ds: real, dm: real, qs: seq<int>, g: nat, n: nat): real
    requires IsBlock(block) && |qs| == 256 && g < 8 && n <= 32
  {
    if n == 0 then 0.0
    else GroupReal(block, ds, dm, qs, g, n - 1) + Weighted4(ds, dm, Quant(block, g, n - 1), qs[32 * g + n - 1])
  }

  /** The decoded weights of the groups below `n`. */
  function BlockReal(block: Bytes, d: real, dmin: real, qs: seq<int>, n: nat): real
    requires IsBlock(block) && |qs| == 256 && n <= 8
  {
    if n == 0 then 0.0
    else BlockReal(block, d, dmin, qs, n - 1)
         + GroupReal(block, Times(d, Scale(block, n - 1)), Times(dmin, Minimum(block, n - 1)), qs, n - 1, 32)
  }

  /** One more weight, over plain numbers. */
  lemma OneWeight(ds: real, dm: real, q: int, a: int, dot: int, sum: int)
    ensures Times(ds, dot) - Times(dm, sum) + Weighted4(ds, dm, q, a) == Times(ds, dot + q * a) - Times(dm, sum + a)
  {
    Cast(q, a);
    Spread(ds, dm, q as real, a as real);
    Gather(ds, dot as real, (q * a) as real, (dot + q * a) as real);
    Gather(dm, sum as real, a as real, (sum + a) as real);
  }

  lemma Spread(ds: real, dm: real, q: real, a: real)
    ensures (ds * q - dm) * a == ds * (q * a) - dm * a
  {
    assert ds * q * a == ds * (q * a);
  }

  lemma Gather(x: real, a: real, b: real, c: real)
    requires c == a + b
    ensures x * c == x * a + x * b
  {
  }

  /** `x` times an integer. */
  function Times(x: real, n: int): real { x * n as real }

  lemma {:induction false} GroupIs(block: Bytes, ds: real, dm: real, qs: seq<int>, g: nat, n: nat)
    requires IsBlock(block) && |qs| == 256 && g < 8 && n <= 32
    ensures GroupReal(block, ds, dm, qs, g, n) == Times(ds, GroupDot(block, qs, g, n)) - Times(dm, SumRun(qs, 32 * g, n))
  {
    if n > 0 {
      GroupIs(block, ds, dm, qs, g, n - 1);
      OneWeight(ds, dm, Quant(block, g, n - 1), qs[32 * g + n - 1], GroupDot(block, qs, g, n - 1), SumRun(qs, 32 * g, n - 1));
    }
  }

  lemma {:induction false} RunSplits(qs: seq<int>, from: nat, n: nat, m: nat)
    requires from + n + m <= |qs|
    ensures SumRun(qs, from, n + m) == SumRun(qs, from, n) + SumRun(qs, from + n, m)
  {
    if m > 0 { RunSplits(qs, from, n, m - 1); }
  }

  lemma GroupSumOf<F>(act: Act<F>, g: nat)
    requires act.Valid() && g < 8
    ensures SumRun(act.qs, 32 * g, 32) == act.bsums[2 * g] + act.bsums[2 * g + 1]
  {
    RunSplits(act.qs, 32 * g, 16, 16);
    assert act.bsums[2 * g] == SumRun(act.qs, 16 * (2 * g), 16);
    assert act.bsums[2 * g + 1] == SumRun(act.qs, 16 * (2 * g + 1), 16);
  }

  /** One more group, over plain numbers. */
  lemma OneGroup(d: real, s: int, x: int, dot: int)
    ensures Times(d, dot) + Times(Times(d, s), x) == Times(d, dot + x * s)
  {
    Cast(x, s);
    assert d * s as real * x as real == d * (x * s) as real;
    Gather(d, dot as real, (x * s) as real, (dot + x * s) as real);
  }

  /** Main result for q4_K: the scaled integers less the minimum term are the dot
      product of the decoded weights. */
  lemma {:induction false} BlockIsDecoded<F>(block: Bytes, d: real, dmin: real, act: Act<F>, n: nat)
    requires IsBlock(block) && act.Valid() && n <= 8
    ensures BlockReal(block, d, dmin, act.qs, n)
         == Times(d, BlockDot(block, act.qs, n)) - Times(dmin, BlockMin(block, act.bsums, n))
  {
    if n > 0 {
      BlockIsDecoded(block, d, dmin, act, n - 1);
      var g: nat := n - 1;
      var s, m := Scale(block, g), Minimum(block, g);
      GroupIs(block, Times(d, s), Times(dmin, m), act.qs, g, 32);
      GroupSumOf(act, g);
      OneGroup(d, s, GroupDot(block, act.qs, g, 32), BlockDot(block, act.qs, g));
      OneGroup(dmin, m, act.bsums[2 * g] + act.bsums[2 * g + 1], BlockMin(block, act.bsums, g));
    }
  }

  // ----- q6_K -----

  /** A weight, `d * scale * (q - 32)`, times its activation. */
  function Weighted6(d: real, s: int, q: int, a: int): real { d * s as real * q as real * a as real }

  /** The decoded weights below `n` against their activations. */
  function BlockReal6(k: Coded, d: real, qs: seq<int>, n: nat): real
    requires k.Valid() && |qs| == 256 && n <= 256
  {
    if n == 0 then 0.0
    else BlockReal6(k, d, qs, n - 1) + Weighted6(d, k.sc[(n - 1) / 16], k.w[n - 1] - 32, qs[n - 1])
  }

  lemma OneWeight6(d: real, s: int, q: int, a: int, dot: int)
    ensures Times(d, dot) + Weighted6(d, s, q, a) == Times(d, dot + s * (q * a))
  {
    Cast(q, a);
    Cast(s, q * a);
    assert d * s as real * q as real * a as real == d * (s as real * (q as real * a as real));
    Gather(d, dot as real, (s * (q * a)) as real, (dot + s * (q * a)) as real);
  }

  /** Main result for q6_K. */
  lemma {:induction false} Block6IsDecoded(k: Coded, d: real, qs: seq<int>, n: nat)
    requires k.Valid() && |qs| == 256 && n <= 256
    ensures BlockReal6(k, d, qs, n) == Times(d, Dot6(k, qs, n))
  {
    if n > 0 {
      Block6IsDecoded(k, d, qs, n - 1);
      OneWeight6(d, k.sc[(n - 1) / 16], k.w[n - 1] - 32, qs[n - 1], Dot6(k, qs, n - 1));
    }
  }
}
