/** The audio front end's transform: a recursive even/odd split that falls back
    to the O(n^2) sum at an odd size, over real arithmetic and one shared twiddle
    table. */
module Fft {
  import opened Arith

  /** A complex number; buffers hold them interleaved as `(re, im)`. */
  datatype Complex = Complex(re: real, im: real)

  function Add(a: Complex, b: Complex): Complex { Complex(a.re + b.re, a.im + b.im) }
  function Mul(a: Complex, b: Complex): Complex { Complex(a.re * b.re - a.im * b.im, a.re * b.im + a.im * b.re) }
  function Scale(x: real, a: Complex): Complex { Complex(x * a.re, x * a.im) }
  const ZERO := Complex(0.0, 0.0)

  /** The two tables, `cosines[i] = cos(2 pi i / N)` and `sines[i] = sin(2 pi i / N)`. */
  datatype Twiddles = Twiddles(cosines: seq<real>, sines: seq<real>) {
    predicate Sized() { |cosines| == |sines| > 0 }

    function Size(): nat { |cosines| }

    /** `W_N^i`, the root the transform multiplies by; `i` may be any multiple. */
    function W(i: nat): Complex
      requires Sized()
    {
      Complex(cosines[i % |cosines|], -sines[i % |cosines|])
    }

    /** The only facts about sine and cosine the transform relies on: the powers of
        one root multiply by adding exponents, and halfway round is -1. */
    ghost predicate RootsOfUnity() {
      && Sized()
      && W(0) == Complex(1.0, 0.0)
      && (forall i: nat, j: nat :: Multiplies(i, j))
      && (|cosines| % 2 == 0 ==> W(|cosines| / 2) == Complex(-1.0, 0.0))
    }

    ghost predicate Multiplies(i: nat, j: nat)
      requires Sized()
    {
      Mul(W(i), W(j)) == W(i + j)
    }
  }

  /** `sum_{i < m} x[i] * W^(k * i * step)`. */
  function Sum(t: Twiddles, x: seq<real>, k: nat, step: nat, m: nat): Complex
    requires t.Sized() && m <= |x|
  {
    if m == 0 then ZERO else Add(Sum(t, x, k, step, m - 1), Scale(x[m - 1], t.W(k * (m - 1) * step)))
  }

  /** The discrete Fourier transform of `x`, bin `k`: the definition every path is
      held to. */
  function Dft(t: Twiddles, x: seq<real>, k: nat): Complex
    requires t.Sized() && |x| > 0
  {
    Sum(t, x, k, t.Size() / |x|, |x|)
  }

  /** Where in a table of size `size` term `i` of bin `k` of an `n`-point transform looks. */
  function Angle(size: nat, n: nat, k: nat, i: nat): (a: nat)
    requires size > 0 && n > 0
    ensures a < size
  {
    k * i * (size / n) % size
  }

  /** The signal against one column of the table, turned `k` times: the first `m` terms. */
  function Correlate(column: seq<real>, x: seq<real>, k: nat, m: nat): real
    requires |column| > 0 && |x| > 0 && m <= |x|
  {
    if m == 0 then 0.0
    else Correlate(column, x, k, m - 1) + x[m - 1] * column[Angle(|column|, |x|, k, m - 1)]
  }

  lemma TermMeans(t: Twiddles, v: real, k: nat, i: nat, n: nat)
    requires t.Sized() && n > 0
    ensures k * i * (t.Size() / n) >= 0
    ensures var a := Angle(t.Size(), n, k, i);
            Scale(v, t.W(k * i * (t.Size() / n))) == Complex(v * t.cosines[a], -(v * t.sines[a]))
  {
    MulSign(k, i);
    DivIff(t.Size(), n, 0);
    MulSign(k * i, t.Size() / n);
    var a := Angle(t.Size(), n, k, i);
    Opposite(v, t.sines[a]);
  }

  lemma Opposite(v: real, s: real)
    ensures v * -s == -(v * s)
  {
  }

  lemma {:induction false} SumMeans(t: Twiddles, x: seq<real>, k: nat, m: nat)
    requires t.Sized() && |x| > 0 && m <= |x|
    ensures Sum(t, x, k, t.Size() / |x|, m) == Complex(Correlate(t.cosines, x, k, m), -Correlate(t.sines, x, k, m))
  {
    if m > 0 {
      SumMeans(t, x, k, m - 1);
      TermMeans(t, x[m - 1], k, m - 1, |x|);
    }
  }

  /** Main result: bin `k` is the signal against the cosines and, negated, against the
      sines -- the forward transform. */
  lemma DftMeans(t: Twiddles, x: seq<real>, k: nat)
    requires t.Sized() && |x| > 0
    ensures Dft(t, x, k).re == Correlate(t.cosines, x, k, |x|)
    ensures Dft(t, x, k).im == -Correlate(t.sines, x, k, |x|)
  {
    SumMeans(t, x, k, |x|);
  }

  function Evens(x: seq<real>): (e: seq<real>)
    requires |x| % 2 == 0
    ensures |e| == |x| / 2
  {
    seq(|x| / 2, i requires 0 <= i < |x| / 2 => x[2 * i])
  }

  function Odds(x: seq<real>): (o: seq<real>)
    requires |x| % 2 == 0
    ensures |o| == |x| / 2
  {
    seq(|x| / 2, i requires 0 <= i < |x| / 2 => x[2 * i + 1])
  }

  // ----- the butterfly -----

  /** One step of the split, as an identity between complex numbers. */
  lemma Regroup(a: Complex, b: Complex, w: Complex, e: Complex, x0: real, x1: real)
    ensures Add(Add(Add(a, Mul(w, b)), Scale(x0, e)), Scale(x1, Mul(w, e)))
         == Add(Add(a, Scale(x0, e)), Mul(w, Add(b, Scale(x1, e))))
  {
    var l, r := Mul(w, Add(b, Scale(x1, e))), Add(Mul(w, b), Scale(x1, Mul(w, e)));
    assert l.re == r.re;
    assert l.im == r.im;
  }

  lemma MulZero(w: Complex)
    ensures Mul(w, ZERO) == ZERO
  {
  }

  lemma Negated(w: Complex, o: Complex)
    ensures Mul(Mul(w, Complex(-1.0, 0.0)), o) == Scale(-1.0, Mul(w, o))
  {
  }

  lemma WrapRoot(t: Twiddles, i: nat, k: nat, j: nat)
    requires t.Sized() && j == i + k * t.Size()
    ensures t.W(j) == t.W(i)
  {
    ModShift(i, t.Size(), k);
  }

  lemma EvenExponent(k: nat, m: nat, step: nat)
    requires m >= 1
    ensures k * (2 * m - 2) * step == k * (m - 1) * (2 * step) >= 0
    ensures k * (2 * m - 1) * step == k * step + k * (m - 1) * (2 * step)
  {
    var p := m - 1;
    assert k * (2 * p) == 2 * (k * p);
    assert 2 * (k * p) * step == (k * p) * (2 * step);
    assert k * (2 * p + 1) == k * (2 * p) + k;
    assert (k * (2 * p) + k) * step == k * (2 * p) * step + k * step;
    assert k * p >= 0;
    assert (k * p) * (2 * step) >= 0;
  }

  /** Splitting the sum by parity: the first `2 m` terms are the first `m` terms of
      the even half plus `W^(k step)` times the first `m` terms of the odd half. */
  lemma {:induction false} SplitSum(t: Twiddles, x: seq<real>, k: nat, step: nat, m: nat)
    requires t.RootsOfUnity() && |x| % 2 == 0 && 2 * m <= |x| && k * step >= 0
    ensures Sum(t, x, k, step, 2 * m)
         == Add(Sum(t, Evens(x), k, 2 * step, m), Mul(t.W(k * step), Sum(t, Odds(x), k, 2 * step, m)))
  {
    var w := t.W(k * step);
    if m == 0 {
      MulZero(w);
    } else {
      SplitSum(t, x, k, step, m - 1);
      EvenExponent(k, m, step);
      var a, b := Sum(t, Evens(x), k, 2 * step, m - 1), Sum(t, Odds(x), k, 2 * step, m - 1);
      var exp: nat := k * (m - 1) * (2 * step);
      var e := t.W(exp);
      var x0, x1 := x[2 * m - 2], x[2 * m - 1];
      assert t.Multiplies(k * step, exp);
      Regroup(a, b, w, e, x0, x1);
      assert Evens(x)[m - 1] == x0 && Odds(x)[m - 1] == x1;
      assert Sum(t, Evens(x), k, 2 * step, m) == Add(a, Scale(x0, e));
      assert Sum(t, Odds(x), k, 2 * step, m) == Add(b, Scale(x1, e));
      assert Sum(t, x, k, step, 2 * m - 1) == Add(Sum(t, x, k, step, 2 * m - 2), Scale(x0, e));
      assert Sum(t, x, k, step, 2 * m) == Add(Sum(t, x, k, step, 2 * m - 1), Scale(x1, t.W(k * step + exp)));
    }
  }

  lemma PeriodExponent(k: nat, h: nat, i: nat, step: nat, size: nat)
    requires h * step == size
    ensures (k + h) * i * step == k * i * step + i * size
    ensures k * i * step >= 0
  {
    assert (k + h) * i == k * i + h * i;
    assert (k * i + h * i) * step == k * i * step + h * i * step;
    assert h * i * step == i * (h * step);
    assert k * i >= 0;
  }

  /** Half a period on, the even and odd halves repeat. */
  lemma {:induction false} SumPeriod(t: Twiddles, x: seq<real>, k: nat, h: nat, step: nat, m: nat)
    requires t.Sized() && m <= |x| && h * step == t.Size()
    ensures Sum(t, x, k + h, step, m) == Sum(t, x, k, step, m)
  {
    if m > 0 {
      SumPeriod(t, x, k, h, step, m - 1);
      PeriodExponent(k, h, m - 1, step, t.Size());
      WrapRoot(t, k * (m - 1) * step, m - 1, (k + h) * (m - 1) * step);
    }
  }

  /** An even divisor of the table halves to another divisor. */
  lemma Divides(size: nat, n: nat, h: nat)
    requires n == 2 * h && h > 0 && size % n == 0
    ensures size % h == 0 && size / h == 2 * (size / n)
    ensures size % 2 == 0 && h * (size / n) == size / 2 && h * (2 * (size / n)) == size
  {
    DivMod(size, n);
    var s := size / n;
    assert s * n == (2 * s) * h;
    DivIs(size, h, 2 * s, 0);
    assert s * n == (s * h) * 2;
    DivIs(size, 2, s * h, 0);
  }

  /** The two output formulas of the split, against the definition. */
  lemma Butterfly(t: Twiddles, x: seq<real>, k: nat, h: nat)
    requires t.RootsOfUnity() && |x| == 2 * h && h > 0 && t.Size() % |x| == 0 && k < h
    ensures k * (t.Size() / |x|) >= 0
    ensures Dft(t, x, k) == Add(Dft(t, Evens(x), k), Mul(t.W(k * (t.Size() / |x|)), Dft(t, Odds(x), k)))
    ensures Dft(t, x, k + h)
         == Add(Dft(t, Evens(x), k), Scale(-1.0, Mul(t.W(k * (t.Size() / |x|)), Dft(t, Odds(x), k))))
  {
    var step := t.Size() / |x|;
    Divides(t.Size(), |x|, h);
    MulSign(k, step);
    SplitSum(t, x, k, step, h);
    assert (k + h) * step == k * step + h * step;
    SplitSum(t, x, k + h, step, h);
    SumPeriod(t, Evens(x), k, h, 2 * step, h);
    SumPeriod(t, Odds(x), k, h, 2 * step, h);
    assert t.Multiplies(k * step, t.Size() / 2);
    Negated(t.W(k * step), Dft(t, Odds(x), k));
  }

  /** The root an inner loop reads at `index`. */
  lemma RootAt(t: Twiddles, i: int, index: int)
    requires t.Sized() && i >= 0 && index == i % t.Size()
    ensures 0 <= index < t.Size() && t.W(i) == Complex(t.cosines[index], -t.sines[index])
  {
  }

  // ----- the two transforms, on buffers -----

  /** Interleaved buffer `out` holds the transform of `x`. */
  ghost predicate Holds(t: Twiddles, x: seq<real>, out: seq<real>)
    requires t.Sized() && |x| > 0
  {
    |out| == 2 * |x| && forall k | 0 <= k < |x| :: At(out, k) == Dft(t, x, k)
  }

  function At(out: seq<real>, k: nat): Complex
    requires 2 * k + 1 < |out|
  {
    Complex(out[2 * k], out[2 * k + 1])
  }

  /** `sum + value * W`, in the two statements of the naive inner loop. */
  method Accumulate(re: real, im: real, value: real, cosVal: real, sinVal: real) returns (re': real, im': real)
    ensures Complex(re', im') == Add(Complex(re, im), Scale(value, Complex(cosVal, -sinVal)))
  {
    re' := re + value * cosVal;
    im' := im + -value * sinVal;
  }

  /** The naive transform, one running sum per output. */
  method DftReal(t: Twiddles, x: array<real>, out: array<real>)
    requires t.Sized() && x.Length > 0 && out.Length == 2 * x.Length && x != out
    modifies out
    ensures Holds(t, x[..], out[..])
  {
    var n := x.Length;
    for k := 0 to n
      invariant forall j | 0 <= j < k :: At(out[..], j) == Dft(t, x[..], j)
    {
      var re, im := DftBin(t, x, k);
      ghost var before := out[..];
      out[k * 2 + 0] := re;
      out[k * 2 + 1] := im;
      forall j | 0 <= j < k
        ensures At(out[..], j) == Dft(t, x[..], j)
      {
        assert At(out[..], j) == At(before, j);
      }
    }
  }

  /** The inner loop: one bin. */
  method DftBin(t: Twiddles, x: array<real>, k: nat) returns (re: real, im: real)
    requires t.Sized() && x.Length > 0
    ensures Complex(re, im) == Dft(t, x[..], k)
  {
    var n := x.Length;
    var size := |t.sines|;
    var step := size / n;
    re, im := 0.0, 0.0;
    for i := 0 to n
      invariant Complex(re, im) == Sum(t, x[..], k, step, i)
    {
      MulSign(k, i);
      MulSign(k * i, step);
      var index := (k * i * step) % size;
      RootAt(t, k * i * step, index);
      re, im := Accumulate(re, im, x[i], t.cosines[index], t.sines[index]);
    }
  }

  /** The recursion.  `n` halves at each even size and any odd size ends it, so the
      call on `n` makes at most log2(n) levels. */
  method FftReal(t: Twiddles, x: array<real>, out: array<real>)
    requires t.RootsOfUnity() && x.Length > 0 && t.Size() % x.Length == 0
    requires out.Length == 2 * x.Length && x != out
    modifies out
    ensures Holds(t, x[..], out[..])
    decreases x.Length
  {
    var n := x.Length;
    if n == 1 {
      out[0] := x[0];
      out[1] := 0.0;
      assert Dft(t, x[..], 0) == Scale(x[0], t.W(0)) by { assert Sum(t, x[..], 0, t.Size(), 0) == ZERO; }
      return;
    }
    var half := n / 2;
    if n - half * 2 == 1 {
      DftReal(t, x, out);
      return;
    }
    var even, odd := new real[half], new real[half];
    for i := 0 to half
      invariant forall j | 0 <= j < i :: even[j] == x[2 * j] && odd[j] == x[2 * j + 1]
    {
      even[i] := x[2 * i];
      odd[i] := x[2 * i + 1];
    }
    assert even[..] == Evens(x[..]) && odd[..] == Odds(x[..]);
    Divides(t.Size(), n, half);
    var evenOut, oddOut := new real[half * 2], new real[half * 2];
    FftReal(t, even, evenOut);
    FftReal(t, odd, oddOut);
    Combine(t, x[..], n, out, evenOut, oddOut);
  }

  /** The last loop of the recursion: butterflies of the two half transforms. */
  method Combine(t: Twiddles, ghost x: seq<real>, n: nat, out: array<real>, evenOut: array<real>, oddOut: array<real>)
    requires t.RootsOfUnity() && n == |x| > 0 && n % 2 == 0 && t.Size() % n == 0
    requires out.Length == 2 * n && out != evenOut && out != oddOut
    requires Holds(t, Evens(x), evenOut[..]) && Holds(t, Odds(x), oddOut[..])
    modifies out
    ensures Holds(t, x, out[..])
  {
    var half := n / 2;
    for k := 0 to half
      invariant forall j | 0 <= j < k :: At(out[..], j) == Dft(t, x, j)
      invariant forall j | half <= j < half + k :: At(out[..], j) == Dft(t, x, j)
    {
      ghost var before := out[..];
      CombineAt(t, x, n, k, out, evenOut, oddOut);
      forall j | 0 <= j < k || half <= j < half + k
        ensures At(out[..], j) == Dft(t, x, j)
      {
        assert At(out[..], j) == At(before, j);
      }
    }
  }

  /** One iteration: bins `k` and `k + n / 2`, and no other cell. */
  method CombineAt(t: Twiddles, ghost x: seq<real>, n: nat, k: nat, out: array<real>, evenOut: array<real>, oddOut: array<real>)
    requires t.RootsOfUnity() && n == |x| > 0 && n % 2 == 0 && t.Size() % n == 0 && k < n / 2
    requires out.Length == 2 * n && out != evenOut && out != oddOut
    requires Holds(t, Evens(x), evenOut[..]) && Holds(t, Odds(x), oddOut[..])
    modifies out
    ensures Complex(out[2 * k], out[2 * k + 1]) == Dft(t, x, k)
    ensures Complex(out[2 * (k + n / 2)], out[2 * (k + n / 2) + 1]) == Dft(t, x, k + n / 2)
    ensures forall j | 0 <= j < out.Length && j / 2 != k && j / 2 != k + n / 2 :: out[j] == old(out[j])
  {
    var half := n / 2;
    var size := |t.sines|;
    var step := size / n;
    MulSign(k, step);
    var index := (k * step) % size;
    RootAt(t, k * step, index);
    assert At(oddOut[..], k) == Dft(t, Odds(x), k) && At(evenOut[..], k) == Dft(t, Evens(x), k);
    var lo, hi := Turn(t.cosines[index], t.sines[index], evenOut[k * 2 + 0], evenOut[k * 2 + 1],
                       oddOut[k * 2 + 0], oddOut[k * 2 + 1]);
    Butterfly(t, x, k, half);
    out[k * 2 + 0] := lo.re;
    out[k * 2 + 1] := lo.im;
    out[(k + half) * 2 + 0] := hi.re;
    out[(k + half) * 2 + 1] := hi.im;
  }

  /** `even +- W * odd`. */
  method Turn(cosVal: real, sinVal: real, evenRe: real, evenIm: real, oddRe: real, oddIm: real)
    returns (lo: Complex, hi: Complex)
    ensures var tw := Mul(Complex(cosVal, -sinVal), Complex(oddRe, oddIm));
            lo == Add(Complex(evenRe, evenIm), tw) && hi == Add(Complex(evenRe, evenIm), Scale(-1.0, tw))
  {
    var twRe := oddRe * cosVal + oddIm * sinVal;
    var twIm := -oddRe * sinVal + oddIm * cosVal;
    lo := Complex(evenRe + twRe, evenIm + twIm);
    hi := Complex(evenRe - twRe, evenIm - twIm);
  }

  function Quarter(a: nat): Complex {
    if a == 0 then Complex(1.0, 0.0) else if a == 1 then Complex(0.0, -1.0) else if a == 2 then Complex(-1.0, 0.0) else Complex(0.0, 1.0)
  }

  lemma MulTurn(z: Complex)
    ensures Mul(Complex(1.0, 0.0), z) == z && Mul(Complex(-1.0, 0.0), z) == Complex(-z.re, -z.im)
    ensures Mul(Complex(0.0, -1.0), z) == Complex(z.im, -z.re) && Mul(Complex(0.0, 1.0), z) == Complex(-z.im, z.re)
  {
  }

  function Rotated(a: nat, z: Complex): Complex {
    if a == 0 then z else if a == 1 then Complex(z.im, -z.re) else if a == 2 then Complex(-z.re, -z.im) else Complex(-z.im, z.re)
  }

  lemma TurnIs(a: nat, q: Complex, z: Complex)
    requires q == Quarter(a)
    ensures Mul(q, z) == Rotated(a, z)
  {
    MulTurn(z);
  }

  lemma TurnQuarter(a: nat, b: nat, c: nat)
    requires a < 4 && b < 4 && (c == a + b < 4 || c == a + b - 4)
    ensures Rotated(a, Quarter(b)) == Quarter(c)
  {
  }

  lemma QuarterProduct(p: Complex, q: Complex, r: Complex, a: nat, b: nat, c: nat)
    requires a < 4 && b < 4 && (c == a + b < 4 || c == a + b - 4)
    requires p == Quarter(a) && q == Quarter(b) && r == Quarter(c)
    ensures Mul(p, q) == r
  {
    TurnIs(a, p, q);
    TurnQuarter(a, b, c);
  }

  const QUARTER_TABLE := Twiddles([1.0, 0.0, -1.0, 0.0], [0.0, 1.0, 0.0, -1.0])

  lemma QuarterAt(i: nat)
    ensures QUARTER_TABLE.Sized() && QUARTER_TABLE.W(i) == Quarter(i % 4)
  {
  }

  lemma QuarterMultiplies(i: nat, j: nat)
    ensures QUARTER_TABLE.Sized() && QUARTER_TABLE.Multiplies(i, j)
  {
    QuarterAt(i);
    QuarterAt(j);
    QuarterAt(i + j);
    QuarterProduct(QUARTER_TABLE.W(i), QUARTER_TABLE.W(j), QUARTER_TABLE.W(i + j), i % 4, j % 4, (i + j) % 4);
  }

  /** The laws asked of a table can be met: quarter turns. */
  lemma QuarterTurns()
    ensures QUARTER_TABLE.RootsOfUnity()
  {
    QuarterAt(0);
    QuarterAt(2);
    forall i: nat, j: nat ensures QUARTER_TABLE.Multiplies(i, j) {
      QuarterMultiplies(i, j);
    }
  }
}
