/** The non-causal arm: three passes per row -- the maximum, the total, the weighted
    sum -- which is the plain form the one-pass kernels are compared with. */
module FullAttention {
  import opened Arith
  import opened Flash
  import opened Attention

  /** `std::max(best, x)`, starting from minus infinity. */
  function Larger(best: Float, x: real): Float {
    if Above(x, best) then Fin(x) else best
  }

  method BestScore(c: Call, t: nat, h: nat, kv: nat) returns (best: real)
    requires c.Inside(c.qOffset + 1) && t < c.qLen && h < c.Heads() && kv < c.nHeadKv && c.firstKey <= c.qOffset
    ensures Fin(best) == Peak(RowStream(c, t, h, kv).x, c.firstKey, c.qOffset + 1)
  {
    ghost var f := RowStream(c, t, h, kv);
    var m := NegInf;
    for s := c.firstKey to c.qOffset + 1
      invariant m == Peak(f.x, c.firstKey, s) && (s > c.firstKey ==> m.Fin?)
    {
      var x := ScoreKey(c, c.qOffset + 1, t, h, kv, s);
      assert f.x(s) == x;
      m := Larger(m, x);
    }
    best := m.r;
  }

  method TotalWeight(c: Call, e: real -> real, t: nat, h: nat, kv: nat, best: real) returns (total: real)
    requires c.Inside(c.qOffset + 1) && t < c.qLen && h < c.Heads() && kv < c.nHeadKv && c.firstKey <= c.qOffset
    ensures total == Mass(e, RowStream(c, t, h, kv).x, c.firstKey, c.qOffset + 1, best)
  {
    ghost var f := RowStream(c, t, h, kv);
    total := 0.0;
    for s := c.firstKey to c.qOffset + 1
      invariant total == Mass(e, f.x, c.firstKey, s, best)
    {
      var x := ScoreKey(c, c.qOffset + 1, t, h, kv, s);
      assert f.x(s) == x;
      total := total + e(x - best);
    }
  }

  /** A partial weighted sum, already divided by the total. */
  ghost predicate Partial(out: seq<real>, at: nat, z: nat, e: real -> real, f: Stream, lo: nat, s: nat, best: real, total: real)
    requires total != 0.0
  {
    at + z < |out| && out[at + z] == Sum(e, f.x, f.v(z), lo, s, best) / total
  }

  ghost predicate Partials(out: seq<real>, at: nat, from: nat, to: nat, e: real -> real, f: Stream, lo: nat, s: nat, best: real, total: real)
    requires total != 0.0
  {
    forall z: nat | from <= z < to :: Partial(out, at, z, e, f, lo, s, best, total)
  }

  lemma AddShare(sum: real, w: real, v: real, total: real)
    requires total != 0.0
    ensures sum / total + (w / total) * v == (sum + w * v) / total
  {
    var a, b := sum / total, w / total;
    assert sum == a * total && w == b * total;
    assert w * v == (b * v) * total;
    assert sum + w * v == (a + b * v) * total;
  }

  method ZeroRow(out: array<real>, at: nat, d: nat, ghost e: real -> real, ghost f: Stream, ghost lo: nat, ghost best: real, ghost total: real)
    requires at + d <= out.Length && total != 0.0
    modifies out
    ensures Partials(out[..], at, 0, d, e, f, lo, lo, best, total)
    ensures forall a | 0 <= a < out.Length && !(at <= a < at + d) :: out[a] == old(out[a])
  {
    for i := 0 to d
      invariant forall a | at <= a < at + i :: out[a] == 0.0
      invariant forall a | 0 <= a < out.Length && !(at <= a < at + d) :: out[a] == old(out[a])
    {
      out[at + i] := 0.0;
    }
    forall z: nat | z < d ensures Partial(out[..], at, z, e, f, lo, lo, best, total) {
      assert out[..][at + z] == 0.0;
    }
  }

  /** `orow[i] += weight * vrow[i]`. */
  method AddRow(out: array<real>, at: nat, d: nat, e: real -> real, ghost f: Stream, ghost lo: nat, ghost s: nat,
                best: real, total: real, x: real, vrow: seq<real>)
    requires at + d <= out.Length && total != 0.0 && lo <= s && |vrow| == d && x == f.x(s)
    requires forall z: nat | z < d :: vrow[z] == f.v(z)(s)
    requires Partials(out[..], at, 0, d, e, f, lo, s, best, total)
    modifies out
    ensures Partials(out[..], at, 0, d, e, f, lo, s + 1, best, total)
    ensures forall a | 0 <= a < out.Length && !(at <= a < at + d) :: out[a] == old(out[a])
  {
    var weight := e(x - best) / total;
    for i := 0 to d
      invariant Partials(out[..], at, 0, i, e, f, lo, s + 1, best, total)
      invariant Partials(out[..], at, i, d, e, f, lo, s, best, total)
      invariant forall a | 0 <= a < out.Length && !(at <= a < at + d) :: out[a] == old(out[a])
    {
      ghost var before := out[..];
      assert Partial(before, at, i, e, f, lo, s, best, total);
      AddShare(Sum(e, f.x, f.v(i), lo, s, best), e(x - best), vrow[i], total);
      out[at + i] := out[at + i] + weight * vrow[i];
      PartialsKept(before, out[..], at, i, 0, i, e, f, lo, s + 1, best, total);
      PartialsKept(before, out[..], at, i, i + 1, d, e, f, lo, s, best, total);
      assert Partial(out[..], at, i, e, f, lo, s + 1, best, total);
    }
  }

  lemma PartialsKept(out: seq<real>, out': seq<real>, at: nat, i: nat, from: nat, to: nat,
                     e: real -> real, f: Stream, lo: nat, s: nat, best: real, total: real)
    requires total != 0.0 && Partials(out, at, from, to, e, f, lo, s, best, total) && !(from <= i < to)
    requires at + i < |out| && |out'| == |out| && out' == out[at + i := out'[at + i]]
    ensures Partials(out', at, from, to, e, f, lo, s, best, total)
  {
    forall z: nat | from <= z < to ensures Partial(out', at, z, e, f, lo, s, best, total) {
      assert Partial(out, at, z, e, f, lo, s, best, total);
    }
  }

  /** The value row a key contributes, and its score. */
  method ReadKey(c: Call, t: nat, h: nat, kv: nat, s: nat) returns (x: real, vrow: seq<real>)
    requires c.Inside(c.qOffset + 1) && t < c.qLen && h < c.Heads() && kv < c.nHeadKv && s <= c.qOffset
    ensures |vrow| == c.d && x == RowStream(c, t, h, kv).x(s)
    ensures forall z: nat | z < c.d :: vrow[z] == RowStream(c, t, h, kv).v(z)(s)
  {
    x := ScoreKey(c, c.qOffset + 1, t, h, kv, s);
    assert c.RowIn(s, kv);
    vrow := c.v[c.RowAt(s, kv)..c.RowAt(s, kv) + c.d];
    forall z: nat | z < c.d ensures vrow[z] == RowStream(c, t, h, kv).v(z)(s) {
      assert RowStream(c, t, h, kv).v(z)(s) == At(c.v, c.RowAt(s, kv) + z);
    }
  }

  /** The third pass. */
  method WeightedPass(c: Call, e: real -> real, t: nat, h: nat, kv: nat, best: real, total: real, at: nat, out: array<real>)
    requires c.Inside(c.qOffset + 1) && at + c.d <= out.Length && total != 0.0 && c.firstKey <= c.qOffset
    requires t < c.qLen && h < c.Heads() && kv < c.nHeadKv
    modifies out
    ensures Partials(out[..], at, 0, c.d, e, RowStream(c, t, h, kv), c.firstKey, c.qOffset + 1, best, total)
    ensures forall a | 0 <= a < out.Length && !(at <= a < at + c.d) :: out[a] == old(out[a])
  {
    ghost var f := RowStream(c, t, h, kv);
    ghost var lo := c.firstKey;
    ZeroRow(out, at, c.d, e, f, lo, best, total);
    for s := c.firstKey to c.qOffset + 1
      invariant Partials(out[..], at, 0, c.d, e, f, lo, s, best, total)
      invariant forall a | 0 <= a < out.Length && !(at <= a < at + c.d) :: out[a] == old(out[a])
    {
      var x, vrow := ReadKey(c, t, h, kv, s);
      AddRow(out, at, c.d, e, f, lo, s, best, total, x, vrow);
    }
  }

  lemma PartialsDone(out: seq<real>, at: nat, d: nat, e: real -> real, f: Stream, lo: nat, hi: nat, best: real, total: real)
    requires ExpLaws(e) && lo < hi && at + d <= |out| && total == Mass(e, f.x, lo, hi, best) && total != 0.0
    requires Partials(out, at, 0, d, e, f, lo, hi, best, total)
    ensures RowOut(out, at, d, e, f, lo, hi)
  {
    forall z: nat | z < d ensures CellOut(out, at, z, e, f, lo, hi) {
      assert Partial(out, at, z, e, f, lo, hi, best, total);
      AverageAt(e, f.x, f.v(z), lo, hi, best);
    }
  }

  /** One query row of one head, in three passes over the span. */
  method ThreePass(c: Call, e: real -> real, t: nat, h: nat, kv: nat, out: array<real>)
    requires ExpLaws(e) && c.Inside(c.qOffset + 1) && out.Length == |c.q| && c.firstKey <= c.qOffset
    requires t < c.qLen && h < c.Heads() && kv < c.nHeadKv
    modifies out
    ensures Done(out[..], c, e, t, h, kv, c.qOffset + 1)
    ensures forall a | 0 <= a < out.Length && !(c.QueryAt(t, h) <= a < c.QueryAt(t, h) + c.d) :: out[a] == old(out[a])
  {
    assert c.QueryIn(t, h);
    var at := c.QueryAt(t, h);
    var best := BestScore(c, t, h, kv);
    var total := TotalWeight(c, e, t, h, kv, best);
    MassPositive(e, RowStream(c, t, h, kv).x, c.firstKey, c.qOffset + 1, best);
    WeightedPass(c, e, t, h, kv, best, total, at, out);
    PartialsDone(out[..], at, c.d, e, RowStream(c, t, h, kv), c.firstKey, c.qOffset + 1, best, total);
  }

  /** Row `t` of head `h` holds the average over the whole span. */
  ghost predicate FullRow(out: seq<real>, c: Call, e: real -> real, t: nat, h: nat)
    requires c.group >= 1
  {
    Done(out, c, e, t, h, h / c.group, c.qOffset + 1)
  }

  function UnitOf(t: nat, h: nat, heads: nat): nat { t * heads + h }

  lemma UnitsApart(t: nat, h: nat, t': nat, h': nat, heads: nat)
    requires h < heads && h' < heads && UnitOf(t, h, heads) == UnitOf(t', h', heads)
    ensures t == t' && h == h'
  {
    Flat(t, h, heads);
    Flat(t', h', heads);
  }

  /** The rows whose unit comes before `unit` are done. */
  ghost predicate RowsDone(out: seq<real>, c: Call, e: real -> real, heads: nat, unit: nat)
    requires c.group >= 1
  {
    forall t: nat, h: nat | t < c.qLen && h < heads && UnitOf(t, h, heads) < unit :: FullRow(out, c, e, t, h)
  }

  lemma RowsDoneStep(out: seq<real>, out': seq<real>, c: Call, e: real -> real, heads: nat, unit: nat, t: nat, h: nat)
    requires c.group >= 1 && heads == c.Heads() && h < heads && UnitOf(t, h, heads) == unit && |out'| == |out|
    requires RowsDone(out, c, e, heads, unit) && FullRow(out', c, e, t, h)
    requires forall a | 0 <= a < |out| && !(c.QueryAt(t, h) <= a < c.QueryAt(t, h) + c.d) :: out'[a] == out[a]
    ensures RowsDone(out', c, e, heads, unit + 1)
  {
    forall t': nat, h': nat | t' < c.qLen && h' < heads && UnitOf(t', h', heads) < unit + 1
      ensures FullRow(out', c, e, t', h')
    {
      if UnitOf(t', h', heads) == unit {
        UnitsApart(t, h, t', h', heads);
      } else {
        assert FullRow(out, c, e, t', h');
        DoneKept(out, out', c, e, t', h', h' / c.group, c.qOffset + 1, t, h);
      }
    }
  }

  ghost predicate AllRows(out: seq<real>, c: Call, e: real -> real)
    requires c.group >= 1
  {
    forall t: nat, h: nat | t < c.qLen && h < c.Heads() :: FullRow(out, c, e, t, h)
  }

  lemma RowsAllDone(out: seq<real>, c: Call, e: real -> real)
    requires c.group >= 1 && RowsDone(out, c, e, c.Heads(), c.qLen * c.Heads())
    ensures AllRows(out, c, e)
  {
    forall t: nat, h: nat | t < c.qLen && h < c.Heads() ensures FullRow(out, c, e, t, h) {
      FlatIn(t, h, c.qLen, c.Heads());
    }
  }

  /** Main result: the three-pass arm leaves in every row the softmax-weighted average
      over `[firstKey, qOffset]`, the same value the one-pass decode leaves.  An f16
      cache or a group wider than the score array is refused, an empty span is not
      touched. */
  method Full(c: Call, e: real -> real, f16: bool, out: array<real>) returns (ok: bool)
    requires ExpLaws(e) && c.Holds(c.qOffset + 1) && out.Length == |c.q|
    modifies out
    ensures ok <==> c.group <= 8 && !f16
    ensures !ok || c.qOffset < c.firstKey ==> out[..] == old(out[..])
    ensures ok && c.firstKey <= c.qOffset ==> AllRows(out[..], c, e)
  {
    if c.group > MAX_GROUP {
      return false;
    }
    if f16 {
      return false;
    }
    ok := true;
    var span := c.qOffset + 1 - c.firstKey;
    if span <= 0 {
      return;
    }
    AllInside(c, c.qOffset + 1);
    FullRows(c, e, out);
    RowsAllDone(out[..], c, e);
  }

  /** Which row and KV head a unit is. */
  lemma UnitIs(unit: nat, qLen: nat, nHeadKv: nat, group: nat)
    requires nHeadKv >= 1 && group >= 1 && unit < qLen * (nHeadKv * group)
    ensures var heads := nHeadKv * group;
            && heads >= 1 && unit / heads < qLen && unit % heads < heads && (unit % heads) / group < nHeadKv
            && UnitOf(unit / heads, unit % heads, heads) == unit
  {
    MulSign(nHeadKv - 1, group);
    assert (nHeadKv - 1) * group + group == nHeadKv * group;
    var heads := nHeadKv * group;
    FlatUnit(unit, qLen, heads, 1);
    DivMod(unit, heads);
    FlatUnit(unit % heads, nHeadKv, group, 1);
  }

  method PickRow(c: Call, unit: nat) returns (t: nat, h: nat, kv: nat)
    requires c.nHeadKv >= 1 && c.group >= 1 && unit < c.qLen * c.Heads()
    ensures t < c.qLen && h < c.Heads() && kv == h / c.group < c.nHeadKv && UnitOf(t, h, c.Heads()) == unit
  {
    UnitIs(unit, c.qLen, c.nHeadKv, c.group);
    t, h := unit / c.Heads(), unit % c.Heads();
    kv := h / c.group;
  }

  method FullRows(c: Call, e: real -> real, out: array<real>)
    requires ExpLaws(e) && c.nHeadKv >= 1 && c.group >= 1 && c.Inside(c.qOffset + 1)
    requires out.Length == |c.q| && c.firstKey <= c.qOffset
    modifies out
    ensures RowsDone(out[..], c, e, c.Heads(), c.qLen * c.Heads())
  {
    ghost var heads := c.Heads();
    var units := c.qLen * c.Heads();
    MulSign(c.qLen, heads);
    for unit := 0 to units
      invariant RowsDone(out[..], c, e, heads, unit)
    {
      var t, h, kv := PickRow(c, unit);
      ghost var before := out[..];
      ThreePass(c, e, t, h, kv, out);
      RowsDoneStep(before, out[..], c, e, heads, unit, t, h);
    }
  }
}
