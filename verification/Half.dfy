/** The scalar f32/f16 conversions on bit patterns: narrowing is round-to-nearest,
    ties to even (sections 3.4 and 4.3.1 of IEEE 754-2019), widening is exact.

    Magnitudes are compared as integers: every finite f32 is a multiple of 2^-149, and
    `Value32`/`Value16` count those multiples. */
module Half {
  import opened Arith

  const INF32 := 0x7F80_0000
  const INF16 := 0x7C00
  const SIGN32 := 0x8000_0000
  const SIGN16 := 0x8000

  lemma Pow13()
    ensures Pow2(13) == 8192 && Pow2(10) == 1024 && Pow2(23) == 0x80_0000 && Pow2(24) == 0x100_0000
  {
    assert Pow2(4) == 16;
    assert Pow2(8) == 256;
    assert Pow2(10) == 1024;
    assert Pow2(13) == 8192;
    assert Pow2(16) == 65536;
    assert Pow2(20) == 0x10_0000;
    assert Pow2(23) == 0x80_0000;
  }

  /** An f32 exponent field and mantissa, in units of 2^-149. */
  function FieldValue(exp: nat, man: nat): nat {
    if exp == 0 then man else (0x80_0000 + man) * Pow2(exp - 1)
  }

  /** A finite f32 magnitude pattern in the same units. */
  function Value32(mag: nat): nat { FieldValue(mag / 0x80_0000, mag % 0x80_0000) }

  /** An f16 magnitude pattern in the same units; the pattern of infinity counts as
      2^16, the value it stands for when rounding. */
  function Value16(h: nat): nat {
    var e, m := h / 0x400, h % 0x400;
    if e == 0 then m * Pow2(125) else (0x400 + m) * Pow2(e + 124)
  }

  // ----- the f16 grid -----

  /** The step from one pattern to the next. */
  function Step16(h: nat): nat {
    var e := h / 0x400;
    if e == 0 then Pow2(125) else Pow2(e + 124)
  }

  lemma NextPattern(h: nat)
    ensures (h + 1) / 0x400 == (if h % 0x400 == 0x3FF then h / 0x400 + 1 else h / 0x400)
    ensures (h + 1) % 0x400 == (if h % 0x400 == 0x3FF then 0 else h % 0x400 + 1)
  {
  }

  lemma GridStep(h: nat)
    ensures Value16(h + 1) == Value16(h) + Step16(h)
  {
    var e, m := h / 0x400, h % 0x400;
    NextPattern(h);
    if e == 0 {
      Scale(m, 1, Pow2(125));
    } else {
      Scale(0x400 + m, 1, Pow2(e + 124));
      assert Pow2(e + 125) == 2 * Pow2(e + 124);
    }
  }

  lemma Scale(a: int, b: int, p: int)
    ensures (a + b) * p == a * p + b * p
  {
  }

  /** A grid of increasing values. */
  ghost predicate Increasing(v: nat -> nat) {
    forall h: nat, h': nat | h < h' :: v(h) < v(h')
  }

  lemma {:induction false} GridGrows(h: nat, h': nat)
    requires h < h'
    ensures Value16(h) < Value16(h')
  {
    GridStep(h' - 1);
    if h < h' - 1 { GridGrows(h, h' - 1); }
  }

  lemma GridIncreases()
    ensures Increasing(Value16)
  {
    forall h: nat, h': nat | h < h' ensures Value16(h) < Value16(h') {
      GridGrows(h, h');
    }
  }

  // ----- narrowing -----

  function Quotient(a: nat, b: nat): (q: nat)
    requires b >= 1
    ensures q == a / b
  {
    DivIff(a, b, 0);
    a / b
  }

  function Remainder(a: nat, b: nat): (r: nat)
    requires b >= 1
    ensures r == a % b < b
  {
    a % b
  }

  /** Round the count of dropped units: up past half, and at half towards even. */
  predicate RoundsUp(rem: nat, halfway: nat, base: nat) {
    rem > halfway || (rem == halfway && base % 2 != 0)
  }

  /** The subnormal arm: the significand counted in units of 2^-24. */
  function NarrowSmall(exp: nat, man: nat): nat
    requires exp <= 112
  {
    if exp < 95 then 0
    else
      var w := Pow2(126 - exp);
      var base, rem := Quotient(0x80_0000 + man, w), Remainder(0x80_0000 + man, w);
      if RoundsUp(rem, Pow2(125 - exp), base) then base + 1 else base
  }

  /** The normal arm: thirteen bits dropped, a carry into the exponent, overflow to
      infinity. */
  function NarrowLarge(exp: nat, man: nat): nat
    requires exp >= 113
  {
    var base := man / 0x2000;
    var up := if RoundsUp(man % 0x2000, 0x1000, base) then base + 1 else base;
    var e16 := if up == 0x400 then exp - 111 else exp - 112;
    if e16 >= 0x1F then INF16 else e16 * 0x400 + (if up == 0x400 then 0 else up)
  }

  /** A NaN keeps the top of its payload, with the quiet bit set. */
  function Quiet(payload: nat): nat {
    if payload / 0x200 % 2 == 0 then payload + 0x200 else payload
  }

  /** `float_to_half`, on the magnitude. */
  function NarrowMag(mag: nat): nat {
    if mag > INF32 then INF16 + Quiet(mag / 0x2000 % 0x400)
    else if mag == INF32 then INF16
    else if mag / 0x80_0000 <= 112 then NarrowSmall(mag / 0x80_0000, mag % 0x80_0000)
    else NarrowLarge(mag / 0x80_0000, mag % 0x80_0000)
  }

  /** Of the patterns up to infinity's, `h` has the value nearest to `x`, and is even
      if another is equally near. */
  ghost predicate Nearest(v: nat -> nat, x: nat, h: nat) {
    h <= INF16 && forall h': nat | h' <= INF16 :: Closer(x, v(h), v(h'), h, h')
  }

  function Distance(a: int, b: int): nat { if a < b then b - a else a - b }

  predicate Closer(x: nat, vh: nat, vh': nat, h: nat, h': nat) {
    Distance(x, vh) < Distance(x, vh') || (Distance(x, vh) == Distance(x, vh') && (h == h' || h % 2 == 0))
  }

  /** Between two neighbouring patterns, the nearer one is the nearest of all. */
  lemma BetweenPatterns(v: nat -> nat, x: nat, f: nat, low: nat, high: nat, h: nat)
    requires Increasing(v) && x == v(f) + low && v(f + 1) == x + high && high > 0 && f < INF16
    requires h == f || h == f + 1
    requires low < high ==> h == f
    requires high < low ==> h == f + 1
    requires low == high ==> h % 2 == 0
    ensures Nearest(v, x, h)
  {
    forall h': nat | h' <= INF16 ensures Closer(x, v(h), v(h'), h, h') {
      if h' < f {
        assert v(h') < v(f);
      } else if h' > f + 1 {
        assert v(f + 1) < v(h');
      }
    }
  }

  lemma Split(rem: nat, halfway: nat, unit: nat) returns (low: nat, high: nat)
    requires unit >= 1 && rem < 2 * halfway
    ensures low == rem * unit && low + high == 2 * halfway * unit && high > 0
    ensures (low < high <==> rem < halfway) && (low == high <==> rem == halfway)
  {
    var d := halfway - rem;
    MulSign(rem, unit);
    MulMono(rem, 2 * halfway, unit);
    low := rem * unit;
    high := (2 * halfway) * unit - low;
    assert high - low == 2 * (d * unit);
    MulSign(d, unit);
    MulSign(-d, unit);
    assert (-d) * unit == -(d * unit);
  }

  /** Rounding inside one step of the grid. */
  lemma RoundInStep(v: nat -> nat, x: nat, f: nat, unit: nat, rem: nat, halfway: nat, up: bool)
    requires Increasing(v) && unit >= 1 && rem < 2 * halfway
    requires x == v(f) + rem * unit && v(f + 1) == v(f) + 2 * halfway * unit
    requires up == RoundsUp(rem, halfway, f) && f < INF16
    ensures Nearest(v, x, if up then f + 1 else f)
  {
    var low, high := Split(rem, halfway, unit);
    BetweenPatterns(v, x, f, low, high, if up then f + 1 else f);
  }

  /** Past the largest finite value the nearest pattern is infinity's. */
  lemma RoundBeyond(v: nat -> nat, x: nat)
    requires Increasing(v) && x >= v(INF16)
    ensures Nearest(v, x, INF16)
  {
    forall h': nat | h' <= INF16 ensures Closer(x, v(INF16), v(h'), INF16, h') {
      assert h' < INF16 ==> v(h') < v(INF16);
    }
  }

  lemma PatternNormal(e16: nat, base: nat)
    requires 1 <= e16 && base < 0x400
    ensures (e16 * 0x400 + base) / 0x400 == e16 && (e16 * 0x400 + base) % 0x400 == base
  {
    Flat(e16, base, 0x400);
  }

  lemma ProductBelow(a: nat, p: nat, a': nat, p': nat)
    requires a < a' && p <= p' && p' >= 1
    ensures a * p < a' * p'
  {
    MulMono(a, a', p');
    MulMono(p, p', a);
  }

  lemma ProductAbove(a: nat, p: nat, a': nat, p': nat)
    requires a >= a' && p >= p'
    ensures a * p >= a' * p'
  {
    MulMono(a', a, p);
    MulMono(p', p, a');
  }

  lemma NormalGrid(e16: nat, base: nat, unit: nat)
    requires 1 <= e16 && base < 0x400 && unit == Pow2(e16 + 111)
    ensures Value16(e16 * 0x400 + base) == (0x400 + base) * (0x2000 * unit)
    ensures Step16(e16 * 0x400 + base) == 0x2000 * unit
  {
    PatternNormal(e16, base);
    PowAdd(13, e16 + 111);
    Pow13();
  }

  /** The normal range: ten mantissa bits survive, thirteen decide. */
  lemma LargeIsNearest(exp: nat, man: nat)
    requires 113 <= exp <= 142 && man < 0x80_0000
    ensures Nearest(Value16, FieldValue(exp, man), NarrowLarge(exp, man))
  {
    var e16, base, rem, unit := exp - 112, man / 0x2000, man % 0x2000, Pow2(exp - 1);
    var f := e16 * 0x400 + base;
    NormalGrid(e16, base, unit);
    NormalValue(man, base, rem, unit);
    assert f % 2 == base % 2;
    GridStep(f);
    GridIncreases();
    RoundInStep(Value16, FieldValue(exp, man), f, unit, rem, 0x1000, RoundsUp(rem, 0x1000, base));
  }

  lemma NormalValue(man: nat, base: nat, rem: nat, unit: nat)
    requires man == base * 0x2000 + rem
    ensures (0x80_0000 + man) * unit == (0x400 + base) * (0x2000 * unit) + rem * unit
  {
    assert 0x80_0000 + man == (0x400 + base) * 0x2000 + rem;
    Scale((0x400 + base) * 0x2000, rem, unit);
    assert ((0x400 + base) * 0x2000) * unit == (0x400 + base) * (0x2000 * unit);
  }

  lemma SubnormalGrid(base: nat)
    requires base < 0x400
    ensures Value16(base) == base * Pow2(125) && Value16(base + 1) == Value16(base) + Pow2(125)
  {
    GridStep(base);
  }

  /** The rounding unit of a small exponent: one f16 step is `w` of them. */
  lemma SmallUnits(exp: nat, sig: nat)
    requires 95 <= exp <= 112 && sig < 0x100_0000
    ensures var w := Pow2(126 - exp);
            w == 2 * Pow2(125 - exp) && Pow2(125) == w * Pow2(exp - 1) && sig / w < 0x400
  {
    PowAdd(126 - exp, exp - 1);
    PowMono(14, 126 - exp);
    assert Pow2(14) == 0x4000;
    BaseBound(sig, Pow2(126 - exp));
  }

  /** The subnormal range: an f16 subnormal counts units of 2^-24. */
  lemma SmallIsNearest(exp: nat, man: nat)
    requires 95 <= exp <= 112 && man < 0x80_0000
    ensures Nearest(Value16, FieldValue(exp, man), NarrowSmall(exp, man))
  {
    var sig, w, unit := 0x80_0000 + man, Pow2(126 - exp), Pow2(exp - 1);
    SmallUnits(exp, sig);
    var base, rem := Quotient(sig, w), Remainder(sig, w);
    DivMod(sig, w);
    SmallValue(sig, base, rem, w, unit);
    SubnormalGrid(base);
    GridIncreases();
    RoundInStep(Value16, FieldValue(exp, man), base, unit, rem, Pow2(125 - exp), RoundsUp(rem, Pow2(125 - exp), base));
  }

  lemma SmallValue(sig: nat, base: nat, rem: nat, w: nat, unit: nat)
    requires sig == base * w + rem
    ensures sig * unit == base * (w * unit) + rem * unit
  {
    Scale(base * w, rem, unit);
    assert (base * w) * unit == base * (w * unit);
  }

  lemma BaseBound(sig: nat, w: nat)
    requires sig < 0x100_0000 && w >= 0x4000
    ensures sig / w < 0x400
  {
    DivIff(sig, w, 0x3FF);
    MulMono(0x4000, w, 0x400);
  }

  /** Below half the smallest subnormal everything rounds to zero. */
  lemma TinyIsNearest(exp: nat, man: nat)
    requires exp < 95 && man < 0x80_0000
    ensures Nearest(Value16, FieldValue(exp, man), 0)
  {
    var x := FieldValue(exp, man);
    TinyBound(exp, man);
    assert Value16(0) == 0 && Value16(1) == Pow2(125) == 2 * Pow2(124);
    GridIncreases();
    BetweenPatterns(Value16, x, 0, x, Pow2(125) - x, 0);
  }

  lemma TinyBound(exp: nat, man: nat)
    requires exp < 95 && man < 0x80_0000
    ensures FieldValue(exp, man) < Pow2(124)
  {
    Pow13();
    PowMono(24, 124);
    if exp > 0 {
      PowMono(exp - 1, 100);
      PowAdd(24, 100);
      ProductBelow(0x80_0000 + man, Pow2(exp - 1), 0x100_0000, Pow2(100));
    }
  }

  lemma HugeIsNearest(exp: nat, man: nat)
    requires exp >= 143
    ensures Nearest(Value16, FieldValue(exp, man), INF16)
  {
    PowMono(142, exp - 1);
    ProductAbove(0x80_0000 + man, Pow2(exp - 1), 0x80_0000, Pow2(142));
    NormalGrid(31, 0, Pow2(142));
    assert 0x400 * (0x2000 * Pow2(142)) == 0x80_0000 * Pow2(142);
    GridIncreases();
    RoundBeyond(Value16, FieldValue(exp, man));
  }

  /** Main result: every finite f32 narrows to the nearest f16, ties to even. */
  lemma NarrowIsNearest(mag: nat)
    requires mag < INF32
    ensures Nearest(Value16, Value32(mag), NarrowMag(mag))
  {
    var exp, man := mag / 0x80_0000, mag % 0x80_0000;
    if exp < 95 {
      TinyIsNearest(exp, man);
    } else if exp <= 112 {
      SmallIsNearest(exp, man);
    } else if exp <= 142 {
      LargeIsNearest(exp, man);
    } else {
      HugeIsNearest(exp, man);
    }
  }
}
