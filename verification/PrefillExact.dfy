/** When a one-pass call gives what decoding its tokens one at a time gives: exactly
    when it has one token, or the batch of two query heads never straddles a KV head. */
module PrefillExact {
  import opened Arith
  import opened Flash
  import opened Attention
  import opened Prefill

  /** The two-head batch stays inside one KV head's group. */
  predicate Aligned(c: Call) { c.group % 2 == 0 || c.nHeadKv == 1 }

  lemma EvenGroup(h: nat, group: nat)
    requires group >= 1 && group % 2 == 0
    ensures (h / 2 * 2) / group == h / group
  {
    var q, m := h / group, group / 2;
    DivIff(h, group, q);
    assert q * group == 2 * (q * m);
    DivIs(h / 2 * 2, group, q, h / 2 * 2 - q * group);
  }

  /** Every query head reads its own KV head if and only if the shape is aligned. */
  lemma HeadsRight(c: Call)
    requires c.Span()
    ensures (forall h: nat | h < c.Heads() :: KvRead(c, h) == h / c.group) <==> Aligned(c)
  {
    if c.group % 2 == 0 {
      forall h: nat | h < c.Heads() ensures KvRead(c, h) == h / c.group {
        EvenGroup(h, c.group);
      }
    } else if c.nHeadKv == 1 {
      forall h: nat | h < c.Heads() ensures KvRead(c, h) == h / c.group {
        DivIs(h, c.group, 0, h);
        DivIs(h / 2 * 2, c.group, 0, h / 2 * 2);
      }
    } else {
      StrayHead(c);
      assert KvRead(c, c.group) != c.group / c.group;
    }
  }

  /** Off alignment, the first head of KV head 1 is batched with the last head of KV
      head 0 and reads its cache. */
  lemma StrayHead(c: Call)
    requires c.Span() && !Aligned(c)
    ensures c.group < c.Heads() && KvRead(c, c.group) == 0 && c.group / c.group == 1
  {
    MulMono(2, c.nHeadKv, c.group);
    DivIs(c.group, c.group, 1, 0);
    DivIs(c.group - 1, c.group, 0, c.group - 1);
    assert c.group / 2 * 2 == c.group - 1;
  }

  /** Token `t` of the batch, as the one-token call that decodes it alone. */
  function OneToken(c: Call, t: nat): (one: Call)
    requires c.Valid() && t < c.qLen
    ensures one.Valid() && one.qLen == 1 && t * (c.Heads() * c.d) + c.Heads() * c.d <= |c.q|
  {
    var n := c.Heads() * c.d;
    MulSign(c.Heads(), c.d);
    FlatIn(t, 0, c.qLen, n + 1);
    MulMono(t + 1, c.qLen, n);
    assert (t + 1) * n == t * n + n && c.qLen * n == |c.q|;
    MulSign(t, n);
    MulMono(c.qOffset + t + 1, c.Rows(), c.Stride());
    c.(q := c.q[t * n..t * n + n], qLen := 1, qOffset := c.qOffset + t)
  }

  /** A dot product against a slice is the dot product inside the whole. */
  lemma {:induction false} DotSlice(q: seq<real>, from: nat, n: nat, ao: nat, b: seq<real>, bo: nat, m: nat)
    requires from + n <= |q| && ao + m <= n
    ensures Dot(q[from..from + n], ao, b, bo, m) == Dot(q, from + ao, b, bo, m)
  {
    if m > 0 {
      DotSlice(q, from, n, ao, b, bo, m - 1);
      assert At(q[from..from + n], ao + m - 1) == At(q, from + ao + m - 1);
    }
  }

  lemma QueryShift(t: int, h: int, heads: int, d: int)
    requires 0 <= h < heads && d >= 0
    ensures (t * heads + h) * d == t * (heads * d) + h * d && (0 * heads + h) * d == h * d
    ensures 0 <= h * d && h * d + d <= heads * d
  {
    assert (t * heads) * d == t * (heads * d);
    MulSign(h, d);
    MulMono(h + 1, heads, d);
    assert (h + 1) * d == h * d + d;
  }

  lemma ScoreSame(c: Call, t: nat, h: nat, kv: nat, s: nat)
    requires c.Valid() && t < c.qLen && h < c.Heads()
    ensures Score(OneToken(c, t), 0, h, kv, s) == Score(c, t, h, kv, s)
  {
    var one, n := OneToken(c, t), c.Heads() * c.d;
    QueryShift(t, h, c.Heads(), c.d);
    var from, ao := t * n, h * c.d;
    assert one.QueryAt(0, h) == ao && c.QueryAt(t, h) == from + ao;
    DotSlice(c.q, from, n, ao, c.k, c.RowAt(s, kv), c.d);
  }

  lemma {:induction false} TotalsSame(e: real -> real, x: nat -> real, v: nat -> real, x': nat -> real, v': nat -> real, lo: nat, hi: nat)
    requires forall s: nat | lo <= s < hi :: x(s) == x'(s) && v(s) == v'(s)
    ensures Mass(e, x, lo, hi, 0.0) == Mass(e, x', lo, hi, 0.0)
    ensures Sum(e, x, v, lo, hi, 0.0) == Sum(e, x', v', lo, hi, 0.0)
  {
    if lo < hi { TotalsSame(e, x, v, x', v', lo, hi - 1); }
  }

  lemma {:induction false} ConstantSum(e: real -> real, x: nat -> real, v: nat -> real, lo: nat, hi: nat, k: real)
    requires forall s: nat | lo <= s < hi :: v(s) == k
    ensures Sum(e, x, v, lo, hi, 0.0) == k * Mass(e, x, lo, hi, 0.0)
  {
    if lo < hi { ConstantSum(e, x, v, lo, hi - 1, k); }
  }

  /** The average of a constant is that constant. */
  lemma ConstantAverage(e: real -> real, x: nat -> real, v: nat -> real, lo: nat, hi: nat, k: real)
    requires ExpLaws(e) && lo < hi && forall s: nat | lo <= s < hi :: v(s) == k
    ensures Average(e, x, v, lo, hi) == k
  {
    MassPositive(e, x, lo, hi, 0.0);
    ConstantSum(e, x, v, lo, hi, k);
  }

  /** The KV head a one-pass call reads for query head `h`: a single token takes the
      decode path. */
  function HeadRead(c: Call, h: nat): nat
    requires c.Span()
  {
    if c.qLen == 1 then h / c.group else KvRead(c, h)
  }

  /** The one-pass call: refused above the group cap, decoded if it has one token, and
      prefilled in batches otherwise. */
  method OnePass(c: Call, e: real -> real, out: array<real>) returns (ok: bool)
    requires ExpLaws(e) && c.Valid() && out.Length == |c.q|
    modifies out
    ensures ok <==> c.group <= 8
    ensures !ok ==> out[..] == old(out[..])
    ensures ok ==> forall t: nat, h: nat | t < c.qLen && h < c.Heads() :: Written(out[..], c, e, t, h, HeadRead(c, h))
  {
    if c.qLen == 1 {
      ok := Decode(c, e, out);
    } else {
      ok := Prefill.Prefill(c, e, out);
    }
  }

  /** The value a one-pass call stores for component `z` of row `(t, h)`. */
  function Batched(c: Call, e: real -> real, t: nat, h: nat, z: nat): real
    requires c.Span()
  {
    var f := RowStream(c, t, h, HeadRead(c, h));
    Average(e, f.x, f.v(z), c.firstKey, c.qOffset + t + 1)
  }

  /** The value the one-token decode of that token stores for it. */
  function Alone(c: Call, e: real -> real, t: nat, h: nat, z: nat): real
    requires c.Valid() && t < c.qLen
  {
    var one := OneToken(c, t);
    var f := RowStream(one, 0, h, h / c.group);
    Average(e, f.x, f.v(z), one.firstKey, one.qOffset + 1)
  }

  lemma SameHead(c: Call, e: real -> real, t: nat, h: nat, z: nat)
    requires c.Valid() && t < c.qLen && h < c.Heads() && HeadRead(c, h) == h / c.group
    ensures Batched(c, e, t, h, z) == Alone(c, e, t, h, z)
  {
    var one, kv := OneToken(c, t), h / c.group;
    var f, g := RowStream(c, t, h, kv), RowStream(one, 0, h, kv);
    forall s: nat | c.firstKey <= s < c.qOffset + t + 1 ensures f.x(s) == g.x(s) && f.v(z)(s) == g.v(z)(s) {
      ScoreSame(c, t, h, kv, s);
      assert f.v(z)(s) == At(c.v, c.RowAt(s, kv) + z) == g.v(z)(s);
    }
    TotalsSame(e, f.x, f.v(z), g.x, g.v(z), c.firstKey, c.qOffset + t + 1);
  }

  function Mark(i: nat, stride: nat, d: nat): real {
    if stride > 0 && i % stride < d then 0.0 else 1.0
  }

  /** The same call on a cache whose KV head 0 stores zeros and the others ones. */
  function Marked(c: Call): (m: Call)
    requires c.Valid()
    ensures m.Valid()
  {
    MulSign(c.nHeadKv, c.d);
    MulSign(c.Rows(), c.Stride());
    c.(v := seq(c.Rows() * c.Stride(), (i: nat) => Mark(i, c.Stride(), c.d)))
  }

  lemma MarkedRow(c: Call, s: nat, kv: nat)
    requires c.Valid() && s < c.Rows() && kv < c.nHeadKv && c.d >= 1
    ensures At(Marked(c).v, c.RowAt(s, kv)) == if kv == 0 then 0.0 else 1.0
  {
    var m := Marked(c);
    RowInside(m, m.Rows(), s, kv);
    assert m.RowIn(s, kv) && m.RowAt(s, kv) == c.RowAt(s, kv);
    MulMono(kv + 1, c.nHeadKv, c.d);
    assert (kv + 1) * c.d == kv * c.d + c.d;
    MulMono(1, kv, c.d);
    Flat(s, kv * c.d, c.Stride());
  }

  lemma MarkedAverage(c: Call, e: real -> real, x: Call, t: nat, h: nat, kv: nat, hi: nat)
    requires ExpLaws(e) && c.Valid() && kv < c.nHeadKv && c.d >= 1 && c.firstKey < hi <= c.Rows()
    requires x.v == Marked(c).v && x.nHeadKv == c.nHeadKv && x.d == c.d
    ensures var f := RowStream(x, t, h, kv); Average(e, f.x, f.v(0), c.firstKey, hi) == if kv == 0 then 0.0 else 1.0
  {
    var f := RowStream(x, t, h, kv);
    var k := if kv == 0 then 0.0 else 1.0;
    forall s: nat | c.firstKey <= s < hi ensures f.v(0)(s) == k {
      MarkedRow(c, s, kv);
      assert f.v(0)(s) == At(x.v, x.RowAt(s, kv) + 0);
    }
    ConstantAverage(e, f.x, f.v(0), c.firstKey, hi, k);
  }

  /** Off alignment there is a cache on which a batch of several tokens is wrong for
      every one of them. */
  lemma StrayDiffers(c: Call, e: real -> real, t: nat)
    requires ExpLaws(e) && c.Valid() && t < c.qLen && c.d >= 1 && c.qLen > 1 && c.group <= MAX_GROUP && !Aligned(c)
    ensures c.group < c.Heads() && Batched(Marked(c), e, t, c.group, 0) != Alone(Marked(c), e, t, c.group, 0)
  {
    StrayHead(c);
    var m := Marked(c);
    assert HeadRead(m, c.group) == 0;
    MarkedAverage(c, e, m, t, c.group, 0, c.qOffset + t + 1);
    MarkedAverage(c, e, OneToken(m, t), 0, c.group, 1, c.qOffset + t + 1);
  }

  /** The buffers a call of this shape might be given. */
  ghost predicate SameShape(c: Call, m: Call) {
    m == c.(q := m.q, k := m.k, v := m.v) && m.Valid()
  }

  ghost predicate Agrees(m: Call, e: real -> real)
    requires m.Valid()
  {
    forall t: nat, h: nat, z: nat | t < m.qLen && h < m.Heads() && z < m.d :: Batched(m, e, t, h, z) == Alone(m, e, t, h, z)
  }

  /** Main result: an accepted one-pass call stores, whatever the buffers hold, what
      decoding each token alone stores, if and only if the shape is aligned or has one
      token. */
  lemma PrefillIsDecodeIff(c: Call, e: real -> real)
    requires ExpLaws(e) && c.Valid() && c.d >= 1 && c.group <= MAX_GROUP
    ensures (forall m: Call | SameShape(c, m) :: Agrees(m, e)) <==> Aligned(c) || c.qLen == 1
  {
    if Aligned(c) || c.qLen == 1 {
      forall m: Call | SameShape(c, m) ensures Agrees(m, e) {
        if Aligned(c) { HeadsRight(m); }
        forall t: nat, h: nat, z: nat | t < m.qLen && h < m.Heads() && z < m.d
          ensures Batched(m, e, t, h, z) == Alone(m, e, t, h, z)
        {
          SameHead(m, e, t, h, z);
        }
      }
    } else {
      StrayDiffers(c, e, 0);
      assert SameShape(c, Marked(c)) && !Agrees(Marked(c), e);
    }
  }

  /** What a one-pass call leaves in an output cell is `Batched`. */
  lemma PrefillStores(c: Call, e: real -> real, out: seq<real>, t: nat, h: nat, z: nat)
    requires c.Span() && z < c.d && Written(out, c, e, t, h, HeadRead(c, h))
    ensures c.QueryAt(t, h) + z < |out| && out[c.QueryAt(t, h) + z] == Batched(c, e, t, h, z)
  {
    assert CellOut(out, c.QueryAt(t, h), z, e, RowStream(c, t, h, HeadRead(c, h)), c.firstKey, c.qOffset + t + 1);
  }

  /** What the one-token decode leaves in its output cell is `Alone`. */
  lemma DecodeStores(c: Call, e: real -> real, out: seq<real>, t: nat, h: nat, z: nat)
    requires c.Valid() && t < c.qLen && z < c.d
    requires Done(out, OneToken(c, t), e, 0, h, h / c.group, OneToken(c, t).qOffset + 1)
    ensures var at := OneToken(c, t).QueryAt(0, h); at + z < |out| && out[at + z] == Alone(c, e, t, h, z)
  {
    var one := OneToken(c, t);
    assert CellOut(out, one.QueryAt(0, h), z, e, RowStream(one, 0, h, h / c.group), one.firstKey, one.qOffset + 1);
  }
}
