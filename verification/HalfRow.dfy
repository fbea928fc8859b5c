/** Widening f16 patterns, the round trips, and the scalar row conversions. */
module HalfRow {
  import opened Arith
  import opened Half

  // ----- widening -----

  /** Shift a subnormal mantissa up until its top bit is set, the exponent following
      it. */
  function Normalize(m: nat, e: nat): (r: (nat, nat))
    requires 0 < m < 0x800 && e <= 113 && m >= Pow2(113 - e)
    ensures 0x400 <= r.0 < 0x800 && 103 <= r.1 <= 113
    decreases 0x800 - m
  {
    Doublings(m, 113 - e);
    if m < 0x400 then Normalize(2 * m, e - 1) else (m, e)
  }

  lemma Doublings(m: nat, k: nat)
    requires m >= Pow2(k) && m < 0x800
    ensures k <= 10 && (m < 0x400 ==> k <= 9)
  {
    assert Pow2(4) == 16 && Pow2(8) == 256 && Pow2(10) == 0x400 && Pow2(11) == 0x800;
    if k >= 10 { PowMono(10, k); }
    if k >= 11 { PowMono(11, k); }
  }

  lemma Regroup(a: int, b: int, c: int)
    ensures (a * b) * c == a * (b * c)
  {
  }

  lemma {:induction false} NormalizeKeepsValue(m: nat, e: nat)
    requires 0 < m < 0x800 && e <= 113 && m >= Pow2(113 - e)
    ensures e >= 103
    ensures Normalize(m, e).0 * Pow2(Normalize(m, e).1 - 1) == m * Pow2(e - 1)
    decreases 0x800 - m
  {
    Doublings(m, 113 - e);
    if m < 0x400 {
      NormalizeKeepsValue(2 * m, e - 1);
      assert Pow2(e - 1) == 2 * Pow2(e - 2);
      Regroup(m, 2, Pow2(e - 2));
    }
  }

  /** `half_to_float`, on the magnitude. */
  function WidenMag(h: nat): nat {
    var e, m := h / 0x400, h % 0x400;
    if e == 0 then
      if m == 0 then 0
      else var r := Normalize(m, 113); r.1 * 0x80_0000 + (r.0 - 0x400) * 0x2000
    else if e == 0x1F then INF32 + m * 0x2000
    else (e + 112) * 0x80_0000 + m * 0x2000
  }

  lemma Fields(exp: nat, man: nat)
    requires man < 0x80_0000
    ensures (exp * 0x80_0000 + man) / 0x80_0000 == exp && (exp * 0x80_0000 + man) % 0x80_0000 == man
  {
    Flat(exp, man, 0x80_0000);
  }

  lemma WidenedNormal(e: nat, m: nat)
    requires m < 0x400 && e >= 1
    ensures FieldValue(e + 112, m * 0x2000) == (0x400 + m) * Pow2(e + 124)
  {
    PowAdd(13, e + 111);
    Pow13();
    assert 0x80_0000 + m * 0x2000 == (0x400 + m) * 0x2000;
    assert ((0x400 + m) * 0x2000) * Pow2(e + 111) == (0x400 + m) * (0x2000 * Pow2(e + 111));
  }

  lemma Shifted(m: nat, m': nat, p: nat, q: nat, top: nat)
    requires m' * p == m * q && top == 0x2000 * q
    ensures (0x2000 * m') * p == m * top
  {
    Regroup(0x2000, m', p);
    Regroup(m, 0x2000, q);
    Regroup(0x2000, m, q);
  }

  lemma WidenedSubnormal(m: nat)
    requires 0 < m < 0x400
    ensures var r := Normalize(m, 113); FieldValue(r.1, (r.0 - 0x400) * 0x2000) == m * Pow2(125)
  {
    var r := Normalize(m, 113);
    NormalizeKeepsValue(m, 113);
    PowAdd(13, 112);
    Pow13();
    Shifted(m, r.0, Pow2(r.1 - 1), Pow2(112), Pow2(125));
    assert 0x80_0000 + (r.0 - 0x400) * 0x2000 == 0x2000 * r.0;
  }

  /** Main result: widening is exact for every finite pattern. */
  lemma WidenIsExact(h: nat)
    requires h < INF16
    ensures WidenMag(h) < INF32 && Value32(WidenMag(h)) == Value16(h)
  {
    var e, m := h / 0x400, h % 0x400;
    if e == 0 {
      if m > 0 {
        var r := Normalize(m, 113);
        Fields(r.1, (r.0 - 0x400) * 0x2000);
        WidenedSubnormal(m);
      }
    } else {
      Fields(e + 112, m * 0x2000);
      WidenedNormal(e, m);
    }
  }

  // ----- round trips -----

  /** The only pattern nearest to a value on the grid is its own. */
  lemma NearestToSelf(v: nat -> nat, h: nat, n: nat)
    requires Increasing(v) && h <= INF16 && Nearest(v, v(h), n)
    ensures n == h
  {
    assert Closer(v(h), v(n), v(h), n, h);
    assert n < h ==> v(n) < v(h);
    assert h < n ==> v(h) < v(n);
  }

  lemma NaNNarrows(p: nat)
    requires 0 < p < 0x400
    ensures INF32 + p * 0x2000 > INF32 && (INF32 + p * 0x2000) / 0x2000 % 0x400 == p
    ensures NarrowMag(INF32 + p * 0x2000) == INF16 + Quiet(p)
  {
    assert INF32 == 0x3FC00 * 0x2000;
    assert (INF32 + p * 0x2000) / 0x2000 == 0x3FC00 + p;
    assert 0x3FC00 == 0xFF * 0x400;
  }

  /** A NaN whose quiet bit is clear. */
  predicate Signaling(h: nat) { h > INF16 && h % 0x400 < 0x200 }

  /** What narrowing a widened pattern gives: itself, except that a signaling NaN comes
      back quiet. */
  lemma NarrowWidened(h: nat)
    requires h < SIGN16
    ensures NarrowMag(WidenMag(h)) == (if Signaling(h) then h + 0x200 else h)
  {
    if h < INF16 {
      WidenIsExact(h);
      NarrowIsNearest(WidenMag(h));
      GridIncreases();
      NearestToSelf(Value16, h, NarrowMag(WidenMag(h)));
    } else if h > INF16 {
      NaNNarrows(h - INF16);
    }
  }

  lemma NarrowInRange(mag: nat)
    requires mag < SIGN32
    ensures NarrowMag(mag) < SIGN16 && !Signaling(NarrowMag(mag))
    ensures mag > INF32 <==> NarrowMag(mag) > INF16
  {
    if mag < INF32 {
      NarrowIsNearest(mag);
    }
  }

  /** `float_to_half` on a whole pattern. */
  function Narrow(bits: nat): nat { bits / SIGN32 * SIGN16 + NarrowMag(bits % SIGN32) }

  /** `half_to_float` on a whole pattern. */
  function Widen(bits: nat): nat { bits / SIGN16 * SIGN32 + WidenMag(bits % SIGN16) }

  lemma WidenInRange(h: nat)
    requires h < SIGN16
    ensures WidenMag(h) < SIGN32
  {
    if h < INF16 { WidenIsExact(h); }
  }

  /** Main result: a pattern survives widening and narrowing if and only if it is not a
      signaling NaN. */
  lemma RoundTripIff(bits: nat)
    requires bits < 0x1_0000
    ensures Narrow(Widen(bits)) == bits <==> !Signaling(bits % SIGN16)
  {
    var s, h := bits / SIGN16, bits % SIGN16;
    WidenInRange(h);
    Flat(s, WidenMag(h), SIGN32);
    NarrowWidened(h);
  }

  /** Main result: once narrowed, further widening and narrowing changes nothing, for
      every f32 pattern, NaN included. */
  lemma NarrowedIsStable(bits: nat)
    requires bits < 0x1_0000_0000
    ensures Narrow(bits) < 0x1_0000 && Narrow(Widen(Narrow(bits))) == Narrow(bits)
  {
    var s, mag := bits / SIGN32, bits % SIGN32;
    NarrowInRange(mag);
    Flat(s, NarrowMag(mag), SIGN16);
    RoundTripIff(Narrow(bits));
  }

  /** Main result: narrowing keeps the sign bit and acts on the magnitude alone. */
  lemma NarrowKeepsSign(bits: nat)
    requires bits < 0x1_0000_0000
    ensures Narrow(bits) < 0x1_0000 && Narrow(bits) / 0x8000 == bits / 0x8000_0000
    ensures Narrow(bits) % 0x8000 == Narrow(bits % 0x8000_0000)
  {
    NarrowInRange(bits % SIGN32);
    Flat(bits / SIGN32, NarrowMag(bits % SIGN32), SIGN16);
  }

  /** Main result: infinity narrows to infinity, and a NaN to a quiet NaN with its own nine
      payload bits. */
  lemma NarrowSpecials(bits: nat)
    requires bits < 0x1_0000_0000 && bits % 0x8000_0000 >= 0x7F80_0000
    ensures bits % 0x8000_0000 == 0x7F80_0000 ==> Narrow(bits) % 0x8000 == 0x7C00
    ensures bits % 0x8000_0000 > 0x7F80_0000 ==>
              Narrow(bits) % 0x8000 >= 0x7E00 && Narrow(bits) % 0x200 == bits / 0x2000 % 0x200
  {
    NarrowKeepsSign(bits);
    QuietBits(bits % SIGN32);
    SameLowBits(bits / SIGN32, bits % SIGN32, NarrowMag(bits % SIGN32));
  }

  lemma SameLowBits(s: nat, mag: nat, narrowed: nat)
    ensures (s * 0x8000_0000 + mag) / 0x2000 % 0x200 == mag / 0x2000 % 0x200
    ensures (s * 0x8000 + narrowed) % 0x200 == narrowed % 0x200
  {
    assert (s * 0x8000_0000 + mag) / 0x2000 == s * 0x4_0000 + mag / 0x2000;
  }

  /** Main result: widening keeps the sign bit and acts on the magnitude alone; infinity
      stays infinity, a NaN keeps its payload, and the pattern of one is that of one. */
  lemma WidenMeans(half: nat)
    requires half < 0x1_0000
    ensures Widen(half) < 0x1_0000_0000 && Widen(half) / 0x8000_0000 == half / 0x8000
    ensures Widen(half) % 0x8000_0000 == Widen(half % 0x8000)
    ensures half % 0x8000 >= 0x7C00 ==>
              Widen(half) % 0x8000_0000 == 0x7F80_0000 + 0x2000 * (half % 0x8000 - 0x7C00)
    ensures half == 0x3C00 ==> Widen(half) == 0x3F80_0000
  {
    WidenInRange(half % SIGN16);
    Flat(half / SIGN16, WidenMag(half % SIGN16), SIGN32);
  }

  /** A NaN comes back with its quiet bit set and the nine bits below it its own. */
  lemma QuietBits(mag: nat)
    requires mag < SIGN32
    ensures mag > INF32 ==> NarrowMag(mag) >= 0x7E00 && NarrowMag(mag) % 0x200 == mag / 0x2000 % 0x200
  {
    var p := mag / 0x2000 % 0x400;
    assert p % 0x200 == mag / 0x2000 % 0x200;
    assert INF16 == 62 * 0x200;
  }

  // ----- the source's procedures -----

  lemma HalfFields(bits: nat)
    ensures bits % SIGN16 / 0x400 == bits / 0x400 % 0x20 && bits % SIGN16 % 0x400 == bits % 0x400
  {
  }

  method HalfToFloat(bits: nat) returns (out: nat)
    requires bits < 0x1_0000
    ensures out == Widen(bits)
  {
    var sign := bits / SIGN16 * SIGN32;
    var exp, man := bits / 0x400 % 0x20, bits % 0x400;
    HalfFields(bits);
    if exp == 0 {
      if man == 0 {
        out := sign;
      } else {
        var m: nat, e: nat := man, 113;
        while m < 0x400
          invariant 0 < m < 0x800 && e <= 113 && m >= Pow2(113 - e)
          invariant Normalize(m, e) == Normalize(man, 113)
          decreases 0x800 - m
        {
          Doublings(m, 113 - e);
          m := m * 2;
          e := e - 1;
        }
        out := sign + e * 0x80_0000 + m % 0x400 * 0x2000;
      }
    } else if exp == 0x1F {
      out := sign + INF32 + man * 0x2000;
    } else {
      out := sign + (exp + 112) * 0x80_0000 + man * 0x2000;
    }
  }

  method FloatToHalf(bits: nat) returns (half: nat)
    requires bits < 0x1_0000_0000
    ensures half == Narrow(bits)
  {
    var sign := bits / SIGN32 * SIGN16;
    var mag := bits % SIGN32;
    if mag >= INF32 {
      var payload := if mag > INF32 then Quiet(mag / 0x2000 % 0x400) else 0;
      return sign + INF16 + payload;
    }
    var exp, man := mag / 0x80_0000, mag % 0x80_0000;
    if exp <= 112 {
      if exp < 95 {
        return sign;
      }
      var shift := 126 - exp;
      var sig := 0x80_0000 + man;
      var rem := Remainder(sig, Pow2(shift));
      var base := Quotient(sig, Pow2(shift));
      var halfway := Pow2(shift - 1);
      if rem > halfway || (rem == halfway && base % 2 != 0) {
        base := base + 1;
      }
      return sign + base;
    }
    var e16 := exp - 112;
    var rem := man % 0x2000;
    var base := man / 0x2000;
    if rem > 0x1000 || (rem == 0x1000 && base % 2 != 0) {
      base := base + 1;
    }
    if base == 0x400 {
      base := 0;
      e16 := e16 + 1;
    }
    if e16 >= 0x1F {
      return sign + INF16;
    }
    half := sign + e16 * 0x400 + base;
  }

  /** Widen one cache row. */
  method KvRowToFloat(row: seq<nat>, dst: array<nat>)
    requires |row| <= dst.Length && forall i | 0 <= i < |row| :: row[i] < 0x1_0000
    modifies dst
    ensures forall i | 0 <= i < |row| :: dst[i] == Widen(row[i])
    ensures forall i | |row| <= i < dst.Length :: dst[i] == old(dst[i])
  {
    for i := 0 to |row|
      invariant forall j | 0 <= j < i :: dst[j] == Widen(row[j])
      invariant forall j | i <= j < dst.Length :: dst[j] == old(dst[j])
    {
      dst[i] := HalfToFloat(row[i]);
    }
  }

  /** Narrow one row into the cache. */
  method FloatToKvRow(src: seq<nat>, row: array<nat>)
    requires |src| <= row.Length && forall i | 0 <= i < |src| :: src[i] < 0x1_0000_0000
    modifies row
    ensures forall i | 0 <= i < |src| :: row[i] == Narrow(src[i])
    ensures forall i | |src| <= i < row.Length :: row[i] == old(row[i])
  {
    for i := 0 to |src|
      invariant forall j | 0 <= j < i :: row[j] == Narrow(src[j])
      invariant forall j | i <= j < row.Length :: row[j] == old(row[j])
    {
      row[i] := FloatToHalf(src[i]);
    }
  }
}
