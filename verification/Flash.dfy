/** Attention over real arithmetic: the one-pass online softmax against the
    softmax-weighted average it stands for.  `exp` is a parameter `e`, of which
    only the two laws in `ExpLaws` are used. */
module Flash {
  import opened Arith

  /** A float that may still be the initial `-INFINITY`. */
  datatype Float = NegInf | Fin(r: real)

  /** `exp` turns sums into products and is positive. */
  ghost predicate ExpLaws(e: real -> real) {
    && e(0.0) == 1.0
    && (forall a: real :: e(a) > 0.0)
    && (forall a: real, b: real :: Adds(e, a, b))
  }

  ghost predicate Adds(e: real -> real, a: real, b: real) { e(a + b) == e(a) * e(b) }

  /** Total weight of keys `[lo, hi)` with scores `x`, relative to `ref`. */
  function Mass(e: real -> real, x: nat -> real, lo: nat, hi: nat, ref: real): real {
    if hi <= lo then 0.0 else Mass(e, x, lo, hi - 1, ref) + e(x(hi - 1) - ref)
  }

  /** Weighted sum of the values `v` over keys `[lo, hi)`, relative to `ref`. */
  function Sum(e: real -> real, x: nat -> real, v: nat -> real, lo: nat, hi: nat, ref: real): real {
    if hi <= lo then 0.0
    else Sum(e, x, v, lo, hi - 1, ref) + e(x(hi - 1) - ref) * v(hi - 1)
  }

  function Peak(x: nat -> real, lo: nat, hi: nat): Float {
    if hi <= lo then NegInf
    else
      var p := Peak(x, lo, hi - 1);
      if Above(x(hi - 1), p) then Fin(x(hi - 1)) else p
  }

  predicate Above(x: real, m: Float) { m.NegInf? || x > m.r }

  /** The definition every path is held to: the average of the values `v` of keys
      `[lo, hi)`, weighted by `e(x)`. */
  function Average(e: real -> real, x: nat -> real, v: nat -> real, lo: nat, hi: nat): real
  {
    var mass := Mass(e, x, lo, hi, 0.0);
    if mass == 0.0 then 0.0 else Sum(e, x, v, lo, hi, 0.0) / mass
  }

  // ----- moving the reference point -----

  lemma {:induction false} MassPositive(e: real -> real, x: nat -> real, lo: nat, hi: nat, ref: real)
    requires ExpLaws(e)
    ensures Mass(e, x, lo, hi, ref) >= 0.0
    ensures lo < hi ==> Mass(e, x, lo, hi, ref) > 0.0 && Peak(x, lo, hi).Fin?
    ensures lo >= hi ==> Peak(x, lo, hi).NegInf?
  {
    if lo < hi { MassPositive(e, x, lo, hi - 1, ref); }
  }

  lemma Shift(e: real -> real, x: real, from: real, to: real)
    requires ExpLaws(e)
    ensures e(x - to) == e(x - from) * e(from - to)
  {
    assert Adds(e, x - from, from - to);
    assert (x - from) + (from - to) == x - to;
  }

  lemma ScaleTerm(sum': real, sum: real, w': real, w: real, v: real, c: real)
    requires sum' == sum * c && w' == w * c
    ensures sum' + w' * v == (sum + w * v) * c
  {
    assert w' * v == (w * v) * c;
  }

  /** Rescaling by `e(from - to)` is the same as having weighed against `to`. */
  lemma {:induction false} RescaleMass(e: real -> real, x: nat -> real, lo: nat, hi: nat, from: real, to: real)
    requires ExpLaws(e)
    ensures Mass(e, x, lo, hi, to) == Mass(e, x, lo, hi, from) * e(from - to)
  {
    if lo < hi {
      RescaleMass(e, x, lo, hi - 1, from, to);
      Shift(e, x(hi - 1), from, to);
      ScaleTerm(Mass(e, x, lo, hi - 1, to), Mass(e, x, lo, hi - 1, from), e(x(hi - 1) - to), e(x(hi - 1) - from),
                1.0, e(from - to));
    }
  }

  lemma {:induction false} RescaleSum(e: real -> real, x: nat -> real, v: nat -> real, lo: nat, hi: nat, from: real, to: real)
    requires ExpLaws(e)
    ensures Sum(e, x, v, lo, hi, to) == Sum(e, x, v, lo, hi, from) * e(from - to)
  {
    if lo < hi {
      RescaleSum(e, x, v, lo, hi - 1, from, to);
      Shift(e, x(hi - 1), from, to);
      ScaleTerm(Sum(e, x, v, lo, hi - 1, to), Sum(e, x, v, lo, hi - 1, from), e(x(hi - 1) - to), e(x(hi - 1) - from),
                v(hi - 1), e(from - to));
    }
  }

  lemma QuotientKept(s: real, m: real, c: real, s': real, m': real)
    requires m > 0.0 && c > 0.0 && s' == s * c && m' == m * c
    ensures m' > 0.0 && s' / m' == s / m
  {
    var q := s / m;
    assert s == q * m;
    assert s' == q * m';
  }

  /** Any reference point gives the same average. */
  lemma AverageAt(e: real -> real, x: nat -> real, v: nat -> real, lo: nat, hi: nat, ref: real)
    requires ExpLaws(e) && lo < hi
    ensures Mass(e, x, lo, hi, 0.0) > 0.0 && Mass(e, x, lo, hi, ref) > 0.0
    ensures Average(e, x, v, lo, hi) == Sum(e, x, v, lo, hi, ref) / Mass(e, x, lo, hi, ref)
  {
    MassPositive(e, x, lo, hi, 0.0);
    RescaleMass(e, x, lo, hi, 0.0, ref);
    RescaleSum(e, x, v, lo, hi, 0.0, ref);
    QuotientKept(Sum(e, x, v, lo, hi, 0.0), Mass(e, x, lo, hi, 0.0), e(0.0 - ref),
                 Sum(e, x, v, lo, hi, ref), Mass(e, x, lo, hi, ref));
  }

  /** Neighbouring spans add up, and the larger of their peaks is the peak. */
  lemma {:induction false} Join(e: real -> real, x: nat -> real, v: nat -> real, lo: nat, mid: nat, hi: nat, ref: real)
    requires lo <= mid <= hi
    ensures Mass(e, x, lo, hi, ref) == Mass(e, x, lo, mid, ref) + Mass(e, x, mid, hi, ref)
    ensures Sum(e, x, v, lo, hi, ref) == Sum(e, x, v, lo, mid, ref) + Sum(e, x, v, mid, hi, ref)
    ensures Peak(x, lo, hi) == (if Peak(x, mid, hi).Fin? && Above(Peak(x, mid, hi).r, Peak(x, lo, mid))
                                then Peak(x, mid, hi) else Peak(x, lo, mid))
    decreases hi
  {
    if mid < hi { Join(e, x, v, lo, mid, hi - 1, ref); }
  }

  // ----- the running triple -----

  function Ref(m: Float): real { if m.Fin? then m.r else 0.0 }

  /** What a run over keys reads: scores, and one value per key and component. */
  datatype Stream = Stream(x: nat -> real, v: nat -> nat -> real)

  /** `cells` is `[max, denominator, sum...]` after exactly the keys `[lo, hi)`. */
  ghost predicate Rep(cells: seq<Float>, e: real -> real, f: Stream, lo: nat, hi: nat) {
    && |cells| >= 2
    && cells[0] == Peak(f.x, lo, hi)
    && cells[1] == Fin(Mass(e, f.x, lo, hi, Ref(cells[0])))
    && forall a | 2 <= a < |cells| :: cells[a] == Fin(Sum(e, f.x, f.v(a - 2), lo, hi, Ref(cells[0])))
  }

  /** What `exp(P[0] - x)` is, the initial maximum included. */
  function Decay(e: real -> real, m: Float, x: real): real {
    if m.NegInf? then 0.0 else e(m.r - x)
  }

  /** A key that raises the maximum: everything so far is rescaled, and the key
      itself weighs one. */
  lemma RaiseStep(e: real -> real, x: nat -> real, v: nat -> real, lo: nat, s: nat)
    requires ExpLaws(e) && lo <= s && Above(x(s), Peak(x, lo, s))
    ensures var m := Peak(x, lo, s);
            && Peak(x, lo, s + 1) == Fin(x(s))
            && Mass(e, x, lo, s + 1, x(s)) == Mass(e, x, lo, s, Ref(m)) * Decay(e, m, x(s)) + 1.0
            && Sum(e, x, v, lo, s + 1, x(s)) == Sum(e, x, v, lo, s, Ref(m)) * Decay(e, m, x(s)) + v(s)
  {
    var m := Peak(x, lo, s);
    MassPositive(e, x, lo, s, 0.0);
    if m.Fin? {
      RescaleMass(e, x, lo, s, m.r, x(s));
      RescaleSum(e, x, v, lo, s, m.r, x(s));
    }
    assert x(s) - x(s) == 0.0;
  }

  /** A key that does not: it joins at the current reference. */
  lemma KeepStep(e: real -> real, x: nat -> real, v: nat -> real, lo: nat, s: nat)
    requires lo <= s && !Above(x(s), Peak(x, lo, s))
    ensures var m := Peak(x, lo, s);
            && Peak(x, lo, s + 1) == m
            && Mass(e, x, lo, s + 1, m.r) == Mass(e, x, lo, s, m.r) + e(x(s) - m.r)
            && Sum(e, x, v, lo, s + 1, m.r) == Sum(e, x, v, lo, s, m.r) + e(x(s) - m.r) * v(s)
  {
  }

  function Scaled(c: Float, corr: real, v: real): Float requires c.Fin? { Fin(c.r * corr + v) }
  function Weighted(c: Float, w: real, v: real): Float requires c.Fin? { Fin(c.r + w * v) }

  /** `P[2 + z] = P[2 + z] * corr + v[z]`. */
  method RescaleAndAdd(P: array<Float>, at: nat, corr: real, vvec: seq<real>, d: nat)
    requires at + d <= P.Length && d <= |vvec|
    requires forall a | at <= a < at + d :: P[a].Fin?
    modifies P
    ensures forall a | at <= a < at + d :: P[a] == Scaled(old(P[a]), corr, vvec[a - at])
    ensures forall a | 0 <= a < P.Length && !(at <= a < at + d) :: P[a] == old(P[a])
  {
    for z := 0 to d
      invariant forall a | at + z <= a < at + d :: P[a] == old(P[a])
      invariant forall a | at <= a < at + z :: P[a] == Scaled(old(P[a]), corr, vvec[a - at])
      invariant forall a | 0 <= a < P.Length && !(at <= a < at + d) :: P[a] == old(P[a])
    {
      P[at + z] := Fin(P[at + z].r * corr + vvec[z]);
    }
  }

  /** `P[2 + z] += w * v[z]`. */
  method AddWeighted(P: array<Float>, at: nat, w: real, vvec: seq<real>, d: nat)
    requires at + d <= P.Length && d <= |vvec|
    requires forall a | at <= a < at + d :: P[a].Fin?
    modifies P
    ensures forall a | at <= a < at + d :: P[a] == Weighted(old(P[a]), w, vvec[a - at])
    ensures forall a | 0 <= a < P.Length && !(at <= a < at + d) :: P[a] == old(P[a])
  {
    for z := 0 to d
      invariant forall a | at + z <= a < at + d :: P[a] == old(P[a])
      invariant forall a | at <= a < at + z :: P[a] == Weighted(old(P[a]), w, vvec[a - at])
      invariant forall a | 0 <= a < P.Length && !(at <= a < at + d) :: P[a] == old(P[a])
    {
      P[at + z] := Fin(P[at + z].r + w * vvec[z]);
    }
  }

  predicate Triple(cells: seq<Float>) {
    |cells| >= 2 && forall a | 1 <= a < |cells| :: cells[a].Fin?
  }

  /** Cell `a` after a key of score `x` and value row `vvec` is folded in. */
  function FoldCell(e: real -> real, cells: seq<Float>, x: real, vvec: seq<real>, a: nat): (c: Float)
    requires Triple(cells) && |cells| == |vvec| + 2 && a < |cells|
    ensures a >= 1 ==> c.Fin?
  {
    if Above(x, cells[0]) then
      if a == 0 then Fin(x)
      else if a == 1 then Scaled(cells[1], Decay(e, cells[0], x), 1.0)
      else Scaled(cells[a], Decay(e, cells[0], x), vvec[a - 2])
    else
      if a == 0 then cells[0]
      else if a == 1 then Fin(cells[1].r + e(x - cells[0].r))
      else Weighted(cells[a], e(x - cells[0].r), vvec[a - 2])
  }

  function Fold(e: real -> real, cells: seq<Float>, x: real, vvec: seq<real>): (now: seq<Float>)
    requires Triple(cells) && |cells| == |vvec| + 2
    ensures |now| == |cells| && Triple(now)
  {
    seq(|cells|, a requires 0 <= a < |cells| => FoldCell(e, cells, x, vvec, a))
  }

  /** `flash_fold`, on the triple at `P[base ..]`. */
  method FlashFold(P: array<Float>, base: nat, x: real, e: real -> real, vvec: seq<real>, d: nat)
    requires base + d + 2 <= P.Length && d == |vvec| && Triple(P[base..base + d + 2])
    modifies P
    ensures P[base..base + d + 2] == Fold(e, old(P[base..base + d + 2]), x, vvec)
    ensures forall a | 0 <= a < P.Length && !(base <= a < base + d + 2) :: P[a] == old(P[a])
  {
    ghost var cells := P[base..base + d + 2];
    assert forall a | 0 <= a < |cells| :: P[base + a] == cells[a];
    assert forall a | base <= a < base + d + 2 :: P[a] == cells[a - base];
    if Above(x, P[base]) {
      var corr := Decay(e, P[base], x);
      P[base + 1] := Fin(P[base + 1].r * corr + 1.0);
      RescaleAndAdd(P, base + 2, corr, vvec, d);
      P[base] := Fin(x);
    } else {
      var w := e(x - P[base].r);
      P[base + 1] := Fin(P[base + 1].r + w);
      AddWeighted(P, base + 2, w, vvec, d);
    }
    forall a | 0 <= a < |cells| ensures P[base + a] == FoldCell(e, cells, x, vvec, a) {
    }
  }

  /** Folding key `s` after the keys `[lo, s)` is having folded `[lo, s + 1)`. */
  lemma FoldKeepsRep(e: real -> real, cells: seq<Float>, f: Stream, lo: nat, s: nat, vvec: seq<real>)
    requires ExpLaws(e) && lo <= s && Rep(cells, e, f, lo, s) && |cells| == |vvec| + 2
    requires forall z: nat | z < |vvec| :: vvec[z] == f.v(z)(s)
    ensures Triple(cells) && Rep(Fold(e, cells, f.x(s), vvec), e, f, lo, s + 1)
  {
    var now := Fold(e, cells, f.x(s), vvec);
    assert now[0] == FoldCell(e, cells, f.x(s), vvec, 0) && now[1] == FoldCell(e, cells, f.x(s), vvec, 1);
    forall a | 2 <= a < |cells| ensures now[a] == FoldCell(e, cells, f.x(s), vvec, a) {
    }
    if Above(f.x(s), cells[0]) {
      Raised(cells, now, e, f, lo, s);
    } else {
      Kept(cells, now, e, f, lo, s);
    }
  }

  lemma Raised(cells: seq<Float>, now: seq<Float>, e: real -> real, f: Stream, lo: nat, s: nat)
    requires ExpLaws(e) && lo <= s && Rep(cells, e, f, lo, s) && Above(f.x(s), cells[0])
    requires |now| == |cells| && now[0] == Fin(f.x(s))
    requires now[1] == Fin(cells[1].r * Decay(e, cells[0], f.x(s)) + 1.0)
    requires forall a | 2 <= a < |cells| :: now[a] == Fin(cells[a].r * Decay(e, cells[0], f.x(s)) + f.v(a - 2)(s))
    ensures Rep(now, e, f, lo, s + 1)
  {
    RaiseStep(e, f.x, f.v(0), lo, s);
    forall a | 2 <= a < |cells| ensures now[a] == Fin(Sum(e, f.x, f.v(a - 2), lo, s + 1, Ref(now[0]))) {
      RaiseStep(e, f.x, f.v(a - 2), lo, s);
    }
  }

  lemma Kept(cells: seq<Float>, now: seq<Float>, e: real -> real, f: Stream, lo: nat, s: nat)
    requires lo <= s && Rep(cells, e, f, lo, s) && !Above(f.x(s), cells[0])
    requires |now| == |cells| && now[0] == cells[0]
    requires now[1] == Fin(cells[1].r + e(f.x(s) - cells[0].r))
    requires forall a | 2 <= a < |cells| :: now[a] == Fin(cells[a].r + e(f.x(s) - cells[0].r) * f.v(a - 2)(s))
    ensures Rep(now, e, f, lo, s + 1)
  {
    KeepStep(e, f.x, f.v(0), lo, s);
    forall a | 2 <= a < |cells| ensures now[a] == Fin(Sum(e, f.x, f.v(a - 2), lo, s + 1, Ref(now[0]))) {
      KeepStep(e, f.x, f.v(a - 2), lo, s);
    }
  }

  /** The triple before any key. */
  method Clear(P: array<Float>, base: nat, d: nat, ghost e: real -> real, ghost f: Stream, ghost lo: nat)
    requires base + d + 2 <= P.Length
    modifies P
    ensures Rep(P[base..base + d + 2], e, f, lo, lo)
    ensures forall a | 0 <= a < P.Length && !(base <= a < base + d + 2) :: P[a] == old(P[a])
  {
    P[base] := NegInf;
    P[base + 1] := Fin(0.0);
    for z := 0 to d
      invariant P[base] == NegInf && P[base + 1] == Fin(0.0)
      invariant forall a | base + 2 <= a < base + 2 + z :: P[a] == Fin(0.0)
      invariant forall a | 0 <= a < P.Length && !(base <= a < base + d + 2) :: P[a] == old(P[a])
    {
      P[base + 2 + z] := Fin(0.0);
    }
    ghost var now := P[base..base + d + 2];
    assert now[0] == P[base] && now[1] == P[base + 1];
    assert forall a | 2 <= a < |now| :: now[a] == P[base + a];
  }

  // ----- merging triples -----

  /** The triple of `[mid, hi)` joins totals over `[lo, mid)` once both are moved to
      one reference point. */
  lemma MergeStep(e: real -> real, x: nat -> real, v: nat -> real, lo: nat, mid: nat, hi: nat, m: real, ref: real)
    requires ExpLaws(e) && lo <= mid <= hi
    ensures Mass(e, x, lo, hi, ref) == Mass(e, x, lo, mid, ref) + Mass(e, x, mid, hi, m) * e(m - ref)
    ensures Sum(e, x, v, lo, hi, ref) == Sum(e, x, v, lo, mid, ref) + Sum(e, x, v, mid, hi, m) * e(m - ref)
  {
    Join(e, x, v, lo, mid, hi, ref);
    RescaleMass(e, x, mid, hi, m, ref);
    RescaleSum(e, x, v, mid, hi, m, ref);
  }

  /** The larger of two neighbours' maxima is the maximum of both. */
  lemma PeakStep(cells: seq<Float>, e: real -> real, f: Stream, lo: nat, mid: nat, hi: nat, best: Float)
    requires ExpLaws(e) && lo <= mid < hi && Rep(cells, e, f, mid, hi) && best == Peak(f.x, lo, mid)
    ensures cells[0].Fin? && Triple(cells)
    ensures Peak(f.x, lo, hi) == if Above(cells[0].r, best) then cells[0] else best
  {
    MassPositive(e, f.x, mid, hi, 0.0);
    Join(e, f.x, f.v(0), lo, mid, hi, 0.0);
  }

  lemma TimesInverse(a: real, b: real)
    requires b != 0.0
    ensures a * (1.0 / b) == a / b
  {
  }
}
