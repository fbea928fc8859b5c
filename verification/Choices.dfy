/** One request as several choices: their seeds, their ids, and which of them a
    cancellation reaches. */
module Choices {
  import opened Arith

  const MARK := '#'
  const MAX_CHOICES := 128
  const U64 := 0x1_0000_0000_0000_0000

  // ----- 64-bit words as integers -----

  /** `a ^ b`, bit by bit. */
  function Xor(a: nat, b: nat): nat {
    if a == 0 && b == 0 then 0 else 2 * Xor(a / 2, b / 2) + (a % 2 + b % 2) % 2
  }

  function Shift(x: nat, s: nat): nat {
    DivIff(x, Pow2(s), 0);
    x / Pow2(s)
  }

  /** `x ^ (x >> s)`. */
  function Fold(x: nat, s: nat): nat { Xor(x, Shift(x, s)) }

  lemma {:induction false} XorBits(a: nat, b: nat)
    ensures Xor(a, b) / 2 == Xor(a / 2, b / 2) && Xor(a, b) % 2 == (a % 2 + b % 2) % 2
  {
    if a == 0 && b == 0 {
      assert Xor(0, 0) == 0;
    }
  }

  lemma {:induction false} XorInRange(a: nat, b: nat, n: nat)
    requires a < Pow2(n) && b < Pow2(n)
    ensures Xor(a, b) < Pow2(n)
  {
    if n > 0 {
      XorInRange(a / 2, b / 2, n - 1);
      XorBits(a, b);
    }
  }

  lemma ShiftHalves(x: nat, s: nat)
    ensures Shift(x, s) / 2 == Shift(x / 2, s)
    ensures s >= 1 ==> Shift(x, s) == Shift(x / 2, s - 1)
  {
    HalfOf(x, Pow2(s));
    if s >= 1 { HalfOf(x, Pow2(s - 1)); }
  }

  /** Dividing by two and by `p` in either order. */
  lemma HalfOf(x: nat, p: nat)
    requires p >= 1
    ensures x / p / 2 == x / (2 * p) == x / 2 / p
  {
    var q := x / (2 * p);
    DivIff(x, 2 * p, q);
    assert q * (2 * p) == 2 * (q * p) && q * (2 * p) + 2 * p == 2 * (q * p + p);
    DivIff(x, p, 2 * q);
    DivIff(x, p, 2 * q + 1);
    assert (2 * q) * p == 2 * (q * p) && (2 * q + 1) * p == 2 * (q * p) + p;
    DivIff(x / 2, p, q);
  }

  lemma ShiftSmaller(x: nat, s: nat)
    ensures Shift(x, s) <= x
  {
    DivIff(x, Pow2(s), x);
    MulMono(1, Pow2(s), x);
  }

  lemma FoldBits(x: nat, s: nat)
    requires s >= 1
    ensures Fold(x, s) / 2 == Fold(x / 2, s) && Fold(x, s) % 2 == (x % 2 + Shift(x / 2, s - 1) % 2) % 2
  {
    XorBits(x, Shift(x, s));
    ShiftHalves(x, s);
  }

  lemma SameParity(a: nat, b: nat, c: nat)
    requires (a % 2 + c % 2) % 2 == (b % 2 + c % 2) % 2
    ensures a % 2 == b % 2
  {
  }

  /** An xor-shift loses nothing: its high bits are the word's own, and each further bit
      is xored with one already known. */
  lemma {:induction false} FoldIsInjective(x: nat, y: nat, s: nat)
    requires s >= 1 && Fold(x, s) == Fold(y, s)
    ensures x == y
    decreases x + y
  {
    FoldBits(x, s);
    FoldBits(y, s);
    if x + y > 0 {
      FoldIsInjective(x / 2, y / 2, s);
      SameParity(x, y, Shift(x / 2, s - 1));
    }
  }

  /** A product by a constant with an inverse modulo 2^64 loses nothing. */
  lemma ProductIsInjective(x: nat, y: nat, c: nat, inverse: nat)
    requires x < U64 && y < U64 && c * inverse % U64 == 1 && x * c % U64 == y * c % U64
    ensures x == y
  {
    Recover(x, c, inverse);
    Recover(y, c, inverse);
  }

  lemma Recover(x: nat, c: nat, inverse: nat)
    requires x < U64 && c * inverse % U64 == 1
    ensures (x * c % U64) * inverse % U64 == x
  {
    var q, k := x * c / U64, c * inverse / U64;
    DivMod(x * c, U64);
    DivMod(c * inverse, U64);
    Expand(x, c, inverse, q, k, x * c % U64);
    ModShift(x, U64, x * k - q * inverse);
  }

  lemma Expand(x: int, c: int, inverse: int, q: int, k: int, r: int)
    requires x * c == q * U64 + r && c * inverse == k * U64 + 1
    ensures r * inverse == x + (x * k - q * inverse) * U64
  {
    assert (x * c) * inverse == x * (c * inverse);
    assert (q * U64 + r) * inverse == (q * inverse) * U64 + r * inverse;
    assert x * (k * U64 + 1) == (x * k) * U64 + x;
  }

  // ----- seeds -----

  const GAMMA := 0x9E37_79B9_7F4A_7C15
  const M1 := 0xBF58_476D_1CE4_E5B9
  const M2 := 0x94D0_49BB_1331_11EB

  lemma OddConstants()
    ensures GAMMA * 0xF1DE_83E1_9937_733D % U64 == 1
    ensures M1 * 0x96DE_1B17_3F11_9089 % U64 == 1
    ensures M2 * 0x3196_42B2_D24D_8EC3 % U64 == 1
  {
  }

  /** One round: fold, multiply, keep 64 bits. */
  function Round(z: nat, s: nat, m: nat): (r: nat)
    ensures r < U64
  {
    MulSign(Fold(z, s), m);
    Fold(z, s) * m % U64
  }

  lemma Width64()
    ensures Pow2(64) == U64
  {
    assert Pow2(4) == 16;
    assert Pow2(8) == 256;
    PowAdd(8, 8);
    PowAdd(16, 16);
    PowAdd(32, 32);
  }

  lemma FoldInRange(z: nat, s: nat)
    requires z < U64
    ensures Fold(z, s) < U64
  {
    Width64();
    ShiftSmaller(z, s);
    XorInRange(z, Shift(z, s), 64);
  }

  lemma RoundIsInjective(x: nat, y: nat, s: nat, m: nat, inverse: nat)
    requires x < U64 && y < U64 && s >= 1 && m * inverse % U64 == 1 && Round(x, s, m) == Round(y, s, m)
    ensures x == y
  {
    FoldInRange(x, s);
    FoldInRange(y, s);
    ProductIsInjective(Fold(x, s), Fold(y, s), m, inverse);
    FoldIsInjective(x, y, s);
  }

  /** Splitmix64 of a 64-bit state. */
  function Mix(z: nat): nat { Fold(Round(Round(z, 30, M1), 27, M2), 31) }

  lemma MixIsInjective(x: nat, y: nat)
    requires x < U64 && y < U64 && Mix(x) == Mix(y)
    ensures x == y
  {
    OddConstants();
    FoldIsInjective(Round(Round(x, 30, M1), 27, M2), Round(Round(y, 30, M1), 27, M2), 31);
    RoundIsInjective(Round(x, 30, M1), Round(y, 30, M1), 27, M2, 0x3196_42B2_D24D_8EC3);
    RoundIsInjective(x, y, 30, M1, 0x96DE_1B17_3F11_9089);
  }

  /** Python's `base & SEED_MASK`. */
  function Masked(base: int): (m: nat)
    ensures m < U64
  {
    base % U64
  }

  function State(base: int, choice: nat): (z: nat)
    ensures z < U64
  {
    (Masked(base) + GAMMA * (choice + 1)) % U64
  }

  /** The caller's seed for choice 0 and for greedy requests, otherwise splitmix64 of the
      seed advanced to the choice. */
  function ChoiceSeed(base: int, choice: nat, vary: bool): nat {
    if choice == 0 || !vary then Masked(base) else Mix(State(base, choice))
  }

  /** Bit `k` of a word. */
  function Bit(x: nat, k: nat): nat {
    if k == 0 then x % 2 else Bit(x / 2, k - 1)
  }

  /** `y` is `x ^ (x >> s)`, said bit by bit. */
  ghost predicate XorShifted(x: nat, s: nat, y: nat) {
    forall k: nat :: Bit(y, k) == (Bit(x, k) + Bit(x, k + s)) % 2
  }

  lemma {:induction false} XorBit(a: nat, b: nat, k: nat)
    ensures Bit(Xor(a, b), k) == (Bit(a, k) + Bit(b, k)) % 2
    decreases k
  {
    XorBits(a, b);
    if k > 0 { XorBit(a / 2, b / 2, k - 1); }
  }

  lemma {:induction false} ShiftBit(x: nat, s: nat, k: nat)
    ensures Bit(Shift(x, s), k) == Bit(x, k + s)
    decreases s
  {
    if s > 0 {
      ShiftHalves(x, s);
      ShiftBit(x / 2, s - 1, k);
    } else {
      assert Shift(x, 0) == x;
    }
  }

  lemma FoldIsXorShift(x: nat, s: nat)
    ensures XorShifted(x, s, Fold(x, s))
  {
    forall k: nat ensures Bit(Fold(x, s), k) == (Bit(x, k) + Bit(x, k + s)) % 2 {
      XorBit(x, Shift(x, s), k);
      ShiftBit(x, s, k);
    }
  }

  /** Main result: the seed of a further choice is splitmix64 of the caller's seed advanced
      by the golden gamma once per choice, in bits and products modulo 2^64: `a` to `d` are
      the words between its steps. */
  lemma SeedIsSplitMix(base: int, choice: nat) returns (z: nat, a: nat, b: nat, c: nat, d: nat)
    requires choice >= 1
    ensures z == (base + 0x9E37_79B9_7F4A_7C15 * (choice + 1)) % 0x1_0000_0000_0000_0000
    ensures XorShifted(z, 30, a) && b == a * 0xBF58_476D_1CE4_E5B9 % 0x1_0000_0000_0000_0000
    ensures XorShifted(b, 27, c) && d == c * 0x94D0_49BB_1331_11EB % 0x1_0000_0000_0000_0000
    ensures XorShifted(d, 31, ChoiceSeed(base, choice, true))
    ensures ChoiceSeed(base, 0, true) == base % 0x1_0000_0000_0000_0000
  {
    z := State(base, choice);
    StateIs(base, GAMMA * (choice + 1));
    a := Fold(z, 30);
    b := Round(z, 30, M1);
    c := Fold(b, 27);
    d := Round(b, 27, M2);
    FoldIsXorShift(z, 30);
    FoldIsXorShift(b, 27);
    FoldIsXorShift(d, 31);
  }

  lemma StateIs(base: int, advance: nat)
    ensures (Masked(base) + advance) % U64 == (base + advance) % U64
  {
    DivMod(base, U64);
    ModShift(Masked(base) + advance, U64, base / U64);
  }

  lemma StatesDiffer(base: int, i: nat, j: nat)
    requires i + 1 < U64 && j + 1 < U64 && State(base, i) == State(base, j)
    ensures i == j
  {
    var b, x, y := Masked(base), GAMMA * (i + 1), GAMMA * (j + 1);
    DivMod(b + x, U64);
    DivMod(b + y, U64);
    ModShift(y, U64, (b + x) / U64 - (b + y) / U64);
    assert x == y + ((b + x) / U64 - (b + y) / U64) * U64;
    OddConstants();
    ProductIsInjective(i + 1, j + 1, GAMMA, 0xF1DE_83E1_9937_733D);
  }

  /** Main result: the choices after the first of a sampling request all run at different
      seeds, whatever seed the caller named and however many there are. */
  lemma SeedsAreDistinct(base: int, i: nat, j: nat)
    requires 1 <= i && 1 <= j && i + 1 < U64 && j + 1 < U64 && i != j
    ensures ChoiceSeed(base, i, true) != ChoiceSeed(base, j, true)
    ensures ChoiceSeed(base, i, false) == ChoiceSeed(base, 0, true) == Masked(base)
  {
    if ChoiceSeed(base, i, true) == ChoiceSeed(base, j, true) {
      MixIsInjective(State(base, i), State(base, j));
      StatesDiffer(base, i, j);
    }
  }
}
