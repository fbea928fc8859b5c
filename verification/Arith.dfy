/** Facts about products and quotients that the solver does not find unaided.
    Each is stated without preconditions on its order, so a caller never has to
    enter a branch that cannot happen. */
module Arith {

  lemma MulMono(a: int, b: int, k: int)
    requires k >= 0
    ensures a <= b ==> a * k <= b * k
    ensures k > 0 && a < b ==> a * k + k <= b * k
    ensures k > 0 && a * k < b * k ==> a < b
    ensures k > 0 && a * k <= b * k ==> a <= b
  {
    var d := b - a;
    assert b * k - a * k == d * k;
    MulSign(d, k);
    MulSign(d - 1, k);
    assert (d - 1) * k == d * k - k;
  }

  lemma MulSign(d: int, k: int)
    requires k >= 0
    ensures d >= 0 ==> d * k >= 0
    ensures d < 0 && k > 0 ==> d * k < 0
  {
  }

  lemma DivMod(a: int, b: int)
    requires b >= 1
    ensures a == (a / b) * b + a % b && 0 <= a % b < b
  {
  }

  lemma DivIff(a: int, b: int, q: int)
    requires b >= 1
    ensures a / b <= q <==> a < q * b + b
    ensures q <= a / b <==> q * b <= a
  {
    DivMod(a, b);
    MulMono(a / b, q, b);
    MulMono(q, a / b, b);
  }

  lemma DivIs(a: int, b: int, q: int, r: int)
    requires b >= 1 && a == q * b + r && 0 <= r < b
    ensures a / b == q && a % b == r
  {
    DivIff(a, b, q);
    DivMod(a, b);
  }

  lemma ModShift(a: int, b: int, k: int)
    requires b >= 1
    ensures (a + k * b) % b == a % b
    ensures (a + k * b) / b == a / b + k
  {
    DivMod(a, b);
    assert (a / b + k) * b == (a / b) * b + k * b;
    DivIs(a + k * b, b, a / b + k, a % b);
  }

  /** Row-major addresses: `(q, r)` is recovered from `q * b + r`. */
  lemma Flat(q: int, r: int, b: int)
    requires 0 <= r < b
    ensures (q * b + r) / b == q && (q * b + r) % b == r
  {
    DivIs(q * b + r, b, q, r);
  }

  /** A cell `(q, r)` of an `n` by `b` grid lies inside it. */
  lemma FlatIn(q: int, r: int, n: int, b: int)
    requires 0 <= q < n && 0 <= r < b
    ensures 0 <= q * b + r < n * b
  {
    MulSign(q, b);
    MulMono(q, n, b);
  }

  /** The run of `k` cells of grid cell `(q, r)` ends inside `n * b` runs. */
  lemma FlatRun(q: nat, r: nat, n: nat, b: nat, k: nat)
    requires q < n && r < b
    ensures (q * b + r) * k + k <= n * b * k
  {
    FlatIn(q, r, n, b);
    MulMono(q * b + r, n * b, k);
  }

  /** A flat unit index `unit < n * b` names a cell `(unit / b, unit % b)`, and its
      own run of `k` cells ends inside `n * b` runs. */
  lemma FlatUnit(unit: nat, n: nat, b: nat, k: nat)
    requires b >= 1 && unit < n * b
    ensures unit / b < n && unit % b < b && unit - (unit / b) * b == unit % b
    ensures unit * k + k <= n * b * k
  {
    DivMod(unit, b);
    DivIff(unit, b, n - 1);
    assert (n - 1) * b + b == n * b;
    MulMono(unit, n * b, k);
  }

  function Pow2(n: nat): (p: nat)
    ensures p >= 1
  {
    if n == 0 then 1 else 2 * Pow2(n - 1)
  }

  lemma {:induction false} PowAdd(a: nat, b: nat)
    ensures Pow2(a + b) == Pow2(a) * Pow2(b)
  {
    if a > 0 {
      PowAdd(a - 1, b);
      assert 2 * (Pow2(a - 1) * Pow2(b)) == (2 * Pow2(a - 1)) * Pow2(b);
    }
  }

  lemma {:induction false} PowMono(a: nat, b: nat)
    requires a <= b
    ensures Pow2(a) <= Pow2(b)
  {
    if a < b { PowMono(a, b - 1); }
  }
}
