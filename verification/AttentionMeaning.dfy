/** What an attention output is, spelled out on the flat buffers: component `z` of query row
    `(t, h)` is the average of the cached values of the keys the row may see, each weighted
    by the exponential of its scaled dot product with the query. */
module AttentionMeaning {
  import opened Arith
  import opened Flash
  import opened Attention
  import Prefill
  import PrefillExact
  import FullAttention

  /** Component `i` of query `(t, h)`, of key `s` of KV head `kv`, and of its value. */
  function QueryAt(c: Call, t: nat, h: nat, i: nat): real { At(c.q, (t * (c.nHeadKv * c.group) + h) * c.d + i) }
  function KeyAt(c: Call, kv: nat, s: nat, i: nat): real { At(c.k, (s * c.nHeadKv + kv) * c.d + i) }
  function ValueAt(c: Call, kv: nat, s: nat, i: nat): real { At(c.v, (s * c.nHeadKv + kv) * c.d + i) }

  /** The first `m` components of query `(t, h)` against key `s` of KV head `kv`, the scale
      applied to the key. */
  function KeyScore(c: Call, t: nat, h: nat, kv: nat, s: nat, m: nat): real {
    if m == 0 then 0.0
    else KeyScore(c, t, h, kv, s, m - 1) + QueryAt(c, t, h, m - 1) * (c.scale * KeyAt(c, kv, s, m - 1))
  }

  function Weight(c: Call, e: real -> real, t: nat, h: nat, kv: nat, s: nat): real { e(KeyScore(c, t, h, kv, s, c.d)) }

  /** The weights of the keys `[lo, hi)`. */
  function Weights(c: Call, e: real -> real, t: nat, h: nat, kv: nat, lo: nat, hi: nat): real {
    if hi <= lo then 0.0 else Weights(c, e, t, h, kv, lo, hi - 1) + Weight(c, e, t, h, kv, hi - 1)
  }

  /** Their values, weighted. */
  function Weighted(c: Call, e: real -> real, t: nat, h: nat, kv: nat, z: nat, lo: nat, hi: nat): real {
    if hi <= lo then 0.0
    else Weighted(c, e, t, h, kv, z, lo, hi - 1) + Weight(c, e, t, h, kv, hi - 1) * ValueAt(c, kv, hi - 1, z)
  }

  /** Query row `(t, h)` of the output is that average over the keys `[lo, hi)` of KV head
      `kv`. */
  ghost predicate Means(out: seq<real>, c: Call, e: real -> real, t: nat, h: nat, kv: nat, lo: nat, hi: nat) {
    && Weights(c, e, t, h, kv, lo, hi) > 0.0
    && forall z: nat | z < c.d :: MeansCell(out, c, e, t, h, kv, z, lo, hi)
  }

  ghost predicate MeansCell(out: seq<real>, c: Call, e: real -> real, t: nat, h: nat, kv: nat, z: nat, lo: nat, hi: nat) {
    var o := (t * (c.nHeadKv * c.group) + h) * c.d + z;
    0 <= o < |out| && out[o] * Weights(c, e, t, h, kv, lo, hi) == Weighted(c, e, t, h, kv, z, lo, hi)
  }

  // ----- the kernels' own sums -----

  lemma {:induction false} ScoreIs(c: Call, t: nat, h: nat, kv: nat, s: nat, m: nat)
    ensures KeyScore(c, t, h, kv, s, m) == Scaled(Dot(c.q, c.QueryAt(t, h), c.k, c.RowAt(s, kv), m), c.scale)
  {
    if m > 0 {
      ScoreIs(c, t, h, kv, s, m - 1);
      RowPlace(s, kv, c.nHeadKv, c.d);
      Distributes(Dot(c.q, c.QueryAt(t, h), c.k, c.RowAt(s, kv), m - 1), At(c.q, c.QueryAt(t, h) + m - 1),
                  At(c.k, c.RowAt(s, kv) + m - 1), c.scale);
    }
  }

  function Scaled(x: real, a: real): real { x * a }

  lemma Distributes(x: real, p: real, q: real, a: real)
    ensures Scaled(x, a) + p * (a * q) == Scaled(x + p * q, a)
  {
    assert p * (a * q) == (p * q) * a;
  }

  lemma RowPlace(s: nat, kv: nat, n: nat, d: nat)
    ensures (s * n + kv) * d == s * (n * d) + kv * d
  {
    assert s * n * d == s * (n * d);
  }

  /** One key, as the kernels see it. */
  lemma KeyIs(c: Call, t: nat, h: nat, kv: nat, s: nat, z: nat)
    ensures var f := RowStream(c, t, h, kv);
            f.x(s) == KeyScore(c, t, h, kv, s, c.d) && f.v(z)(s) == ValueAt(c, kv, s, z)
  {
    ScoreIs(c, t, h, kv, s, c.d);
    RowPlace(s, kv, c.nHeadKv, c.d);
  }

  lemma {:induction false} SumsOver(c: Call, e: real -> real, t: nat, h: nat, kv: nat, z: nat, x: nat -> real, v: nat -> real, lo: nat, hi: nat)
    requires forall s: nat :: x(s) == KeyScore(c, t, h, kv, s, c.d) && v(s) == ValueAt(c, kv, s, z)
    ensures Mass(e, x, lo, hi, 0.0) == Weights(c, e, t, h, kv, lo, hi)
    ensures Sum(e, x, v, lo, hi, 0.0) == Weighted(c, e, t, h, kv, z, lo, hi)
  {
    if lo < hi {
      SumsOver(c, e, t, h, kv, z, x, v, lo, hi - 1);
      assert x(hi - 1) - 0.0 == KeyScore(c, t, h, kv, hi - 1, c.d);
    }
  }

  lemma SumsAre(c: Call, e: real -> real, t: nat, h: nat, kv: nat, z: nat, lo: nat, hi: nat)
    ensures var f := RowStream(c, t, h, kv);
            && Mass(e, f.x, lo, hi, 0.0) == Weights(c, e, t, h, kv, lo, hi)
            && Sum(e, f.x, f.v(z), lo, hi, 0.0) == Weighted(c, e, t, h, kv, z, lo, hi)
  {
    var f := RowStream(c, t, h, kv);
    forall s: nat ensures f.x(s) == KeyScore(c, t, h, kv, s, c.d) && f.v(z)(s) == ValueAt(c, kv, s, z) {
      KeyIs(c, t, h, kv, s, z);
    }
    SumsOver(c, e, t, h, kv, z, f.x, f.v(z), lo, hi);
  }

  lemma CellMeans(out: seq<real>, c: Call, e: real -> real, t: nat, h: nat, kv: nat, z: nat, hi: nat)
    requires ExpLaws(e) && c.firstKey < hi && CellOut(out, c.QueryAt(t, h), z, e, RowStream(c, t, h, kv), c.firstKey, hi)
    ensures MeansCell(out, c, e, t, h, kv, z, c.firstKey, hi) && Weights(c, e, t, h, kv, c.firstKey, hi) > 0.0
  {
    SumsAre(c, e, t, h, kv, z, c.firstKey, hi);
    MassPositive(e, RowStream(c, t, h, kv).x, c.firstKey, hi, 0.0);
    Divided(Weighted(c, e, t, h, kv, z, c.firstKey, hi), Weights(c, e, t, h, kv, c.firstKey, hi));
  }

  lemma Divided(s: real, w: real)
    requires w > 0.0
    ensures s / w * w == s
  {
  }

  /** A finished row is that average. */
  lemma DoneMeans(out: seq<real>, c: Call, e: real -> real, t: nat, h: nat, kv: nat, hi: nat)
    requires ExpLaws(e) && c.firstKey < hi && Done(out, c, e, t, h, kv, hi)
    ensures Means(out, c, e, t, h, kv, c.firstKey, hi)
  {
    SumsAre(c, e, t, h, kv, 0, c.firstKey, hi);
    MassPositive(e, RowStream(c, t, h, kv).x, c.firstKey, hi, 0.0);
    forall z: nat | z < c.d ensures MeansCell(out, c, e, t, h, kv, z, c.firstKey, hi) {
      assert CellOut(out, c.QueryAt(t, h), z, e, RowStream(c, t, h, kv), c.firstKey, hi);
      CellMeans(out, c, e, t, h, kv, z, hi);
    }
  }

  // ----- the three forms -----

  /** Main result: one token decoded. */
  lemma DecodeMeans(out: seq<real>, c: Call, e: real -> real, h: nat)
    requires ExpLaws(e) && c.Valid() && c.qLen == 1 && h < c.Heads() && Done(out, c, e, 0, h, h / c.group, c.qOffset + 1)
    ensures Means(out, c, e, 0, h, h / c.group, c.firstKey, c.qOffset + 1)
  {
    DoneMeans(out, c, e, 0, h, h / c.group, c.qOffset + 1);
  }

  /** Main result: an accepted one-pass call, each token up to its own position. */
  lemma OnePassMeans(out: seq<real>, c: Call, e: real -> real, t: nat, h: nat)
    requires ExpLaws(e) && c.Valid() && t < c.qLen && h < c.Heads() && Prefill.Written(out, c, e, t, h, PrefillExact.HeadRead(c, h))
    ensures Means(out, c, e, t, h, if c.qLen == 1 then h / c.group else h / 2 * 2 / c.group, c.firstKey, c.qOffset + t + 1)
  {
    DoneMeans(out, c, e, t, h, PrefillExact.HeadRead(c, h), c.qOffset + t + 1);
  }

  /** Main result: the three-pass form, every row over the whole span. */
  lemma FullMeans(out: seq<real>, c: Call, e: real -> real, t: nat, h: nat)
    requires ExpLaws(e) && c.group >= 1 && c.firstKey <= c.qOffset && t < c.qLen && h < c.Heads() && FullAttention.AllRows(out, c, e)
    ensures Means(out, c, e, t, h, h / c.group, c.firstKey, c.qOffset + 1)
  {
    assert FullAttention.FullRow(out, c, e, t, h);
    DoneMeans(out, c, e, t, h, h / c.group, c.qOffset + 1);
  }

  // ----- what the scale does -----

  function Multiplied(q: seq<real>, a: real): (r: seq<real>)
    ensures |r| == |q|
  {
    seq(|q|, (i: nat) requires i < |q| => Scaled(q[i], a))
  }

  /** The same call with the scale moved into the queries. */
  function Unscaled(c: Call): Call { c.(q := Multiplied(c.q, c.scale), scale := 1.0) }

  lemma {:induction false} UnscaledScore(c: Call, t: nat, h: nat, kv: nat, s: nat, m: nat)
    ensures KeyScore(Unscaled(c), t, h, kv, s, m) == KeyScore(c, t, h, kv, s, m)
  {
    if m > 0 {
      UnscaledScore(c, t, h, kv, s, m - 1);
      MovesOver(QueryAt(c, t, h, m - 1), KeyAt(c, kv, s, m - 1), c.scale);
      AtMultiplied(c.q, c.scale, (t * (c.nHeadKv * c.group) + h) * c.d + (m - 1));
    }
  }

  lemma AtMultiplied(q: seq<real>, a: real, i: int)
    ensures At(Multiplied(q, a), i) == Scaled(At(q, i), a)
  {
  }

  lemma MovesOver(q: real, k: real, a: real)
    ensures q * (a * k) == Scaled(q, a) * (1.0 * k)
  {
    assert q * (a * k) == (q * a) * k;
  }

  lemma UnscaledSums(c: Call, e: real -> real, t: nat, h: nat, kv: nat, z: nat, lo: nat, hi: nat)
    ensures Weights(Unscaled(c), e, t, h, kv, lo, hi) == Weights(c, e, t, h, kv, lo, hi)
    ensures Weighted(Unscaled(c), e, t, h, kv, z, lo, hi) == Weighted(c, e, t, h, kv, z, lo, hi)
  {
    var x, v := (s: nat) => KeyScore(c, t, h, kv, s, c.d), (s: nat) => ValueAt(c, kv, s, z);
    forall s: nat ensures x(s) == KeyScore(Unscaled(c), t, h, kv, s, c.d) {
      UnscaledScore(c, t, h, kv, s, c.d);
    }
    SumsOver(c, e, t, h, kv, z, x, v, lo, hi);
    SumsOver(Unscaled(c), e, t, h, kv, z, x, v, lo, hi);
  }

  lemma CellOf(out: seq<real>, c: Call, e: real -> real, t: nat, h: nat, kv: nat, lo: nat, hi: nat, z: nat, o: nat)
    requires Means(out, c, e, t, h, kv, lo, hi) && z < c.d && o == (t * (c.nHeadKv * c.group) + h) * c.d + z
    ensures o < |out| && Scaled(out[o], Weights(c, e, t, h, kv, lo, hi)) == Weighted(c, e, t, h, kv, z, lo, hi)
    ensures Weights(c, e, t, h, kv, lo, hi) > 0.0
  {
    assert MeansCell(out, c, e, t, h, kv, z, lo, hi);
  }

  /** Main result: a call leaves what the same call leaves with scale one and its queries
      multiplied by the scale. */
  lemma ScaleMoves(out: seq<real>, out': seq<real>, c: Call, e: real -> real, t: nat, h: nat, kv: nat, lo: nat, hi: nat, z: nat, o: nat)
    requires Means(out, c, e, t, h, kv, lo, hi) && Means(out', Unscaled(c), e, t, h, kv, lo, hi)
    requires z < c.d && o == (t * (c.nHeadKv * c.group) + h) * c.d + z
    ensures o < |out| && o < |out'| && out'[o] == out[o]
  {
    CellOf(out, c, e, t, h, kv, lo, hi, z, o);
    CellOf(out', Unscaled(c), e, t, h, kv, lo, hi, z, o);
    UnscaledSums(c, e, t, h, kv, z, lo, hi);
    SameQuotient(out[o], out'[o], Weights(c, e, t, h, kv, lo, hi));
  }

  lemma SameQuotient(x: real, y: real, w: real)
    requires w > 0.0 && Scaled(x, w) == Scaled(y, w)
    ensures x == y
  {
    assert (x - y) * w == 0.0;
  }

  /** The values of the keys `[lo, hi)`, unweighted. */
  function Plain(c: Call, kv: nat, z: nat, lo: nat, hi: nat): real {
    if hi <= lo then 0.0 else Plain(c, kv, z, lo, hi - 1) + ValueAt(c, kv, hi - 1, z)
  }

  lemma {:induction false} NoScore(c: Call, t: nat, h: nat, kv: nat, s: nat, m: nat)
    requires c.scale == 0.0
    ensures KeyScore(c, t, h, kv, s, m) == 0.0
  {
    if m > 0 { NoScore(c, t, h, kv, s, m - 1); }
  }

  lemma {:induction false} PlainSums(c: Call, e: real -> real, t: nat, h: nat, kv: nat, z: nat, lo: nat, hi: nat)
    requires ExpLaws(e) && c.scale == 0.0 && lo <= hi
    ensures Weights(c, e, t, h, kv, lo, hi) == (hi - lo) as real && Weighted(c, e, t, h, kv, z, lo, hi) == Plain(c, kv, z, lo, hi)
  {
    if lo < hi {
      PlainSums(c, e, t, h, kv, z, lo, hi - 1);
      NoScore(c, t, h, kv, hi - 1, c.d);
    }
  }

  /** Main result: with scale zero the output is the plain mean of the visible values. */
  lemma ZeroScaleIsMean(out: seq<real>, c: Call, e: real -> real, t: nat, h: nat, kv: nat, lo: nat, hi: nat, z: nat, o: nat)
    requires ExpLaws(e) && c.scale == 0.0 && lo < hi && Means(out, c, e, t, h, kv, lo, hi)
    requires z < c.d && o == (t * (c.nHeadKv * c.group) + h) * c.d + z
    ensures o < |out| && out[o] * (hi - lo) as real == Plain(c, kv, z, lo, hi)
  {
    CellOf(out, c, e, t, h, kv, lo, hi, z, o);
    PlainSums(c, e, t, h, kv, z, lo, hi);
  }

  /** A score that only component `y` of the query takes part in. */
  lemma {:induction false} OneComponent(c: Call, t: nat, h: nat, kv: nat, s: nat, y: nat, m: nat)
    requires forall i: nat | i < c.d && i != y :: QueryAt(c, t, h, i) == 0.0
    requires m <= c.d
    ensures KeyScore(c, t, h, kv, s, m) == if y < m then QueryAt(c, t, h, y) * (c.scale * KeyAt(c, kv, s, y)) else 0.0
  {
    if m > 0 { OneComponent(c, t, h, kv, s, y, m - 1); }
  }

  /** Main result: a query that is zero but for component `y` weighs each key by the
      exponential of the scaled product of those two numbers. */
  lemma OneComponentWeighs(c: Call, e: real -> real, t: nat, h: nat, kv: nat, y: nat)
    requires y < c.d
    requires forall i: nat | i < c.d && i != y :: QueryAt(c, t, h, i) == 0.0
    ensures forall s: nat :: Weight(c, e, t, h, kv, s) == e(c.scale * QueryAt(c, t, h, y) * KeyAt(c, kv, s, y))
  {
    forall s: nat ensures Weight(c, e, t, h, kv, s) == e(c.scale * QueryAt(c, t, h, y) * KeyAt(c, kv, s, y)) {
      OneComponent(c, t, h, kv, s, y, c.d);
      Reorder(QueryAt(c, t, h, y), c.scale, KeyAt(c, kv, s, y));
    }
  }

  lemma Reorder(q: real, a: real, k: real)
    ensures q * (a * k) == a * q * k
  {
    assert q * (a * k) == (q * a) * k;
  }
}
