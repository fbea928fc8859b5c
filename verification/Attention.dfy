/** The attention kernel's one-pass paths -- the split-and-merge decode and the
    tiled causal prefill -- and its three-pass arm, each proved to write the
    softmax-weighted average of exactly the keys its query may see.

    `parallel_for` bodies are written as the serial loop over units: every unit
    owns the cells it writes, which is what `Partition.SchedulesAgree` needs. */
module Attention {
  import opened Arith
  import opened Flash
  import Partition

  const FLASH_BLOCK := 128
  const FLASH_SPLIT := 8
  const ATTENTION_ROWS := 8
  const HEAD_BATCH := 2
  const MAX_GROUP := 8

  /** One attention call: `qLen` queries of `nHeadKv * group` heads, the first at
      absolute position `qOffset`, over cache rows `[firstKey, qOffset + qLen)`. */
  datatype Call = Call(q: seq<real>, k: seq<real>, v: seq<real>, qLen: nat, nHeadKv: nat, group: nat, d: nat,
                       firstKey: nat, qOffset: nat, scale: real)
  {
    function Heads(): nat { nHeadKv * group }
    function Stride(): nat { nHeadKv * d }
    function Rows(): nat { qOffset + qLen }

    /** The buffers hold every query row, and every cache row below `rows`. */
    ghost predicate Holds(rows: nat) {
      && nHeadKv >= 1 && group >= 1
      && |q| == qLen * Heads() * d && |k| >= rows * Stride() && |v| >= rows * Stride()
    }

    /** The first query sees at least one key. */
    ghost predicate Span() {
      qLen >= 1 && firstKey <= qOffset && nHeadKv >= 1 && group >= 1
    }

    /** A causal call. */
    ghost predicate Valid() {
      Span() && Holds(Rows())
    }

    predicate QueryIn(t: nat, h: nat) { QueryAt(t, h) + d <= |q| }
    predicate RowIn(s: nat, kv: nat) { RowAt(s, kv) + d <= |k| && RowAt(s, kv) + d <= |v| }

    /** Every row the kernel may touch lies inside its buffer. */
    ghost predicate Inside(rows: nat) {
      && (forall t: nat, h: nat | t < qLen && h < Heads() :: QueryIn(t, h))
      && (forall s: nat, kv: nat | s < rows && kv < nHeadKv :: RowIn(s, kv))
    }

    ghost predicate Ready() {
      Span() && Inside(Rows())
    }

    /** Query row `t` of head `h` starts here, in `q` and in the output alike. */
    function QueryAt(t: nat, h: nat): nat { (t * Heads() + h) * d }

    /** Row `s` of KV head `kv` starts here, in both caches. */
    function RowAt(s: nat, kv: nat): nat { s * Stride() + kv * d }
  }

  function At(buf: seq<real>, i: int): real {
    if 0 <= i < |buf| then buf[i] else 0.0
  }

  function Dot(a: seq<real>, ao: nat, b: seq<real>, bo: nat, m: nat): real {
    if m == 0 then 0.0 else Dot(a, ao, b, bo, m - 1) + At(a, ao + m - 1) * At(b, bo + m - 1)
  }

  function Score(c: Call, t: nat, h: nat, kv: nat, s: nat): real {
    Dot(c.q, c.QueryAt(t, h), c.k, c.RowAt(s, kv), c.d) * c.scale
  }

  /** What query row `t` of head `h` sees when it reads KV head `kv`. */
  function RowStream(c: Call, t: nat, h: nat, kv: nat): Stream {
    Stream((s: nat) => Score(c, t, h, kv, s), (z: nat) => (s: nat) => At(c.v, c.RowAt(s, kv) + z))
  }

  // ----- addresses -----

  lemma QueryInside(c: Call, t: nat, h: nat)
    requires c.Holds(0) && t < c.qLen && h < c.Heads()
    ensures c.QueryIn(t, h)
  {
    FlatRun(t, h, c.qLen, c.Heads(), c.d);
  }

  lemma RowInside(c: Call, rows: nat, s: nat, kv: nat)
    requires c.Holds(rows) && s < rows && kv < c.nHeadKv
    ensures c.RowIn(s, kv)
  {
    MulMono(kv + 1, c.nHeadKv, c.d);
    assert (kv + 1) * c.d == kv * c.d + c.d;
    MulMono(s + 1, rows, c.Stride());
    assert (s + 1) * c.Stride() == s * c.Stride() + c.Stride();
  }

  lemma AllInside(c: Call, rows: nat)
    requires c.Holds(rows)
    ensures c.Inside(rows)
  {
    forall t: nat, h: nat | t < c.qLen && h < c.Heads() ensures c.QueryIn(t, h) {
      QueryInside(c, t, h);
    }
    forall s: nat, kv: nat | s < rows && kv < c.nHeadKv ensures c.RowIn(s, kv) {
      RowInside(c, rows, s, kv);
    }
  }

  /** Distinct query rows have disjoint cells. */
  lemma QueryApart(c: Call, t: nat, h: nat, t': nat, h': nat)
    requires h < c.Heads() && h' < c.Heads() && (t != t' || h != h')
    ensures c.QueryAt(t, h) + c.d <= c.QueryAt(t', h') || c.QueryAt(t', h') + c.d <= c.QueryAt(t, h)
  {
    Flat(t, h, c.Heads());
    Flat(t', h', c.Heads());
    var i, j := t * c.Heads() + h, t' * c.Heads() + h';
    assert i != j;
    MulMono(i + 1, j, c.d);
    MulMono(j + 1, i, c.d);
    assert (i + 1) * c.d == i * c.d + c.d && (j + 1) * c.d == j * c.d + c.d;
  }

  // ----- one key into one triple -----

  /** The dot product, a single running sum over the reals. */
  method DotRow(a: seq<real>, ao: nat, b: seq<real>, bo: nat, d: nat) returns (x: real)
    requires ao + d <= |a| && bo + d <= |b|
    ensures x == Dot(a, ao, b, bo, d)
  {
    x := 0.0;
    for m := 0 to d
      invariant x == Dot(a, ao, b, bo, m)
    {
      x := x + a[ao + m] * b[bo + m];
    }
  }

  /** Slot `i` of `P` holds the triple of query row `(t, h)`, reading KV head
      `kv`, over keys `[lo, hi)`. */
  ghost predicate Slot(P: seq<seq<Float>>, i: nat, c: Call, e: real -> real, t: nat, h: nat, kv: nat, lo: nat, hi: nat) {
    i < |P| && |P[i]| == c.d + 2 && Rep(P[i], e, RowStream(c, t, h, kv), lo, hi)
  }

  method ClearSlot(P: array<seq<Float>>, i: nat, c: Call, ghost e: real -> real, ghost t: nat, ghost h: nat, ghost kv: nat, ghost lo: nat)
    requires i < P.Length
    modifies P
    ensures P[..] == old(P[..])[i := P[i]] && Slot(P[..], i, c, e, t, h, kv, lo, lo)
  {
    P[i] := [NegInf, Fin(0.0)] + seq(c.d, z => Fin(0.0));
  }

  method ScoreKey(c: Call, ghost rows: nat, t: nat, h: nat, kv: nat, s: nat) returns (x: real)
    requires c.Inside(rows) && t < c.qLen && h < c.Heads() && kv < c.nHeadKv && s < rows
    ensures x == Score(c, t, h, kv, s)
  {
    assert c.QueryIn(t, h) && c.RowIn(s, kv);
    x := DotRow(c.q, c.QueryAt(t, h), c.k, c.RowAt(s, kv), c.d);
    x := x * c.scale;
  }

  /** The value row a key contributes. */
  function ValueRow(c: Call, s: nat, kv: nat): (row: seq<real>)
    requires c.Ready() && kv < c.nHeadKv && s < c.Rows()
    ensures |row| == c.d
  {
    assert c.RowIn(s, kv);
    c.v[c.RowAt(s, kv)..c.RowAt(s, kv) + c.d]
  }

  /** Score key `s` against query row `(t, h)` and fold it into the slot; the
      store itself is `Flash.FlashFold`. */
  method FoldKey(P: array<seq<Float>>, i: nat, c: Call, e: real -> real, t: nat, h: nat, kv: nat, ghost lo: nat, s: nat)
    requires ExpLaws(e) && c.Ready() && t < c.qLen && h < c.Heads() && kv < c.nHeadKv && lo <= s < c.Rows()
    requires Slot(P[..], i, c, e, t, h, kv, lo, s)
    modifies P
    ensures P[..] == old(P[..])[i := P[i]] && Slot(P[..], i, c, e, t, h, kv, lo, s + 1)
  {
    var x := ScoreKey(c, c.Rows(), t, h, kv, s);
    var vvec := ValueRow(c, s, kv);
    SlotFolds(P[i], c, e, t, h, kv, lo, s, vvec);
    P[i] := Fold(e, P[i], x, vvec);
  }

  lemma SlotFolds(cells: seq<Float>, c: Call, e: real -> real, t: nat, h: nat, kv: nat, lo: nat, s: nat, vvec: seq<real>)
    requires ExpLaws(e) && lo <= s && |cells| == c.d + 2 && Rep(cells, e, RowStream(c, t, h, kv), lo, s)
    requires c.Ready() && kv < c.nHeadKv && s < c.Rows() && vvec == ValueRow(c, s, kv)
    ensures Triple(cells)
    ensures Rep(Fold(e, cells, Score(c, t, h, kv, s), vvec), e, RowStream(c, t, h, kv), lo, s + 1)
  {
    var f := RowStream(c, t, h, kv);
    assert c.RowIn(s, kv);
    forall z: nat | z < |vvec| ensures vvec[z] == f.v(z)(s) {
      assert f.v(z)(s) == At(c.v, c.RowAt(s, kv) + z);
    }
    assert f.x(s) == Score(c, t, h, kv, s);
    FoldKeepsRep(e, cells, f, lo, s, vvec);
  }

  // ----- the one-token decode -----

  function Min(a: int, b: int): int { if a < b then a else b }

  /** The first key of block `b`, or the end of the span. */
  function Cut(c: Call, b: nat): nat
    requires c.Span()
  {
    Min(c.firstKey + b * FLASH_BLOCK, c.qOffset + 1)
  }

  /** Slot `p` is that of query head `h0 + p`. */
  ghost predicate GroupSlot(P: seq<seq<Float>>, c: Call, e: real -> real, h0: nat, kv: nat, lo: nat, hi: nat, p: nat) {
    Slot(P, p, c, e, 0, h0 + p, kv, lo, hi)
  }

  /** The slots of the query heads `h0 + from .. h0 + to`, which read KV head `kv`. */
  ghost predicate GroupSlots(P: seq<seq<Float>>, c: Call, e: real -> real, h0: nat, kv: nat, lo: nat, hi: nat, from: nat, to: nat) {
    forall p: nat | from <= p < to :: GroupSlot(P, c, e, h0, kv, lo, hi, p)
  }

  /** One slot after another: those below `p` have seen `s'`, the rest only `s`. */
  lemma GroupSlotsStep(P: seq<seq<Float>>, P': seq<seq<Float>>, c: Call, e: real -> real, h0: nat, kv: nat,
                       lo: nat, s: nat, s': nat, p: nat, n: nat)
    requires GroupSlots(P, c, e, h0, kv, lo, s', 0, p) && GroupSlots(P, c, e, h0, kv, lo, s, p + 1, n)
    requires p < |P| && |P'| == |P| && P' == P[p := P'[p]] && GroupSlot(P', c, e, h0, kv, lo, s', p)
    ensures GroupSlots(P', c, e, h0, kv, lo, s', 0, p + 1)
    ensures GroupSlots(P', c, e, h0, kv, lo, s, p + 1, n)
  {
    forall q: nat | q < p + 1 ensures GroupSlot(P', c, e, h0, kv, lo, s', q) {
      if q < p { assert GroupSlot(P, c, e, h0, kv, lo, s', q); }
    }
    forall q: nat | p + 1 <= q < n ensures GroupSlot(P', c, e, h0, kv, lo, s, q) {
      assert GroupSlot(P, c, e, h0, kv, lo, s, q);
    }
  }

  /** Every query head of the KV head scores and folds key `s`. */
  method FoldGroup(P: array<seq<Float>>, c: Call, e: real -> real, h0: nat, kv: nat, ghost lo: nat, s: nat)
    requires ExpLaws(e) && c.Ready() && kv < c.nHeadKv && lo <= s < c.Rows() && h0 + P.Length <= c.Heads()
    requires GroupSlots(P[..], c, e, h0, kv, lo, s, 0, P.Length)
    modifies P
    ensures GroupSlots(P[..], c, e, h0, kv, lo, s + 1, 0, P.Length)
  {
    for p := 0 to P.Length
      invariant GroupSlots(P[..], c, e, h0, kv, lo, s + 1, 0, p)
      invariant GroupSlots(P[..], c, e, h0, kv, lo, s, p, P.Length)
    {
      ghost var before := P[..];
      assert GroupSlot(before, c, e, h0, kv, lo, s, p);
      FoldKey(P, p, c, e, 0, h0 + p, kv, lo, s);
      GroupSlotsStep(before, P[..], c, e, h0, kv, lo, s, s + 1, p, P.Length);
    }
  }

  method ClearGroup(P: array<seq<Float>>, c: Call, ghost e: real -> real, ghost h0: nat, ghost kv: nat, ghost lo: nat)
    modifies P
    ensures GroupSlots(P[..], c, e, h0, kv, lo, lo, 0, P.Length)
  {
    for p := 0 to P.Length
      invariant GroupSlots(P[..], c, e, h0, kv, lo, lo, 0, p)
    {
      ghost var before := P[..];
      ClearSlot(P, p, c, e, 0, h0 + p, kv, lo);
      GroupSlotsStep(before, P[..], c, e, h0, kv, lo, lo, lo, p, p + 1);
    }
  }

  /** One unit of the decode: the query heads of one KV head over the blocks
      `[bLo, bHi)`. */
  method DecodeUnit(P: array<seq<Float>>, c: Call, e: real -> real, h0: nat, kv: nat, bLo: nat, bHi: nat)
    requires ExpLaws(e) && c.Ready() && kv < c.nHeadKv && h0 + P.Length <= c.Heads()
    requires bLo <= bHi && (bHi > 0 ==> c.firstKey + (bHi - 1) * FLASH_BLOCK <= c.qOffset)
    modifies P
    ensures GroupSlots(P[..], c, e, h0, kv, Cut(c, bLo), Cut(c, bHi), 0, P.Length)
  {
    ghost var lo := Cut(c, bLo);
    ClearGroup(P, c, e, h0, kv, lo);
    for b := bLo to bHi
      invariant GroupSlots(P[..], c, e, h0, kv, lo, Cut(c, b), 0, P.Length)
    {
      var klo := c.firstKey + b * FLASH_BLOCK;
      var khi := Min(c.qOffset, klo + FLASH_BLOCK - 1);
      assert klo == Cut(c, b) && khi + 1 == Cut(c, b + 1) && lo <= klo;
      for s := klo to khi + 1
        invariant GroupSlots(P[..], c, e, h0, kv, lo, s, 0, P.Length)
      {
        FoldGroup(P, c, e, h0, kv, lo, s);
      }
    }
  }

  /** How the span is cut: a function of the span alone, never of the pool. */
  function Blocks(c: Call): (n: nat)
    requires c.Span()
    ensures n >= 1 && c.firstKey + (n - 1) * FLASH_BLOCK <= c.qOffset + c.qLen - 1 < c.firstKey + n * FLASH_BLOCK
  {
    (c.qOffset + c.qLen - c.firstKey + FLASH_BLOCK - 1) / FLASH_BLOCK
  }

  function Chunks(c: Call): (n: nat)
    requires c.Span()
    ensures 1 <= n <= Blocks(c) && n <= FLASH_SPLIT
  {
    Min(FLASH_SPLIT, if Blocks(c) < 1 then 1 else Blocks(c))
  }

  /** The first block of chunk `i`. */
  function ChunkLo(c: Call, i: nat): nat
    requires c.Span()
  {
    MulSign(Blocks(c), i);
    (Blocks(c) * i) / Chunks(c)
  }

  /** The chunks are non-empty runs of blocks, one after the other, and together
      they are the whole span. */
  lemma ChunksTile(c: Call)
    requires c.Span() && c.qLen == 1
    ensures ChunkLo(c, 0) == 0 && ChunkLo(c, Chunks(c)) == Blocks(c)
    ensures Cut(c, 0) == c.firstKey && Cut(c, Blocks(c)) == c.qOffset + 1
    ensures forall i: nat, j: nat | i < Chunks(c) && j == i + 1 ::
              ChunkLo(c, i) < ChunkLo(c, j) <= Blocks(c) && c.firstKey <= Cut(c, ChunkLo(c, i)) < Cut(c, ChunkLo(c, j))
  {
    Partition.RangesTile(Blocks(c), Chunks(c));
    forall i: nat, j: nat | i < Chunks(c) && j == i + 1
      ensures ChunkLo(c, i) < ChunkLo(c, j) <= Blocks(c) && c.firstKey <= Cut(c, ChunkLo(c, i)) < Cut(c, ChunkLo(c, j))
    {
      assert Partition.Lo(Blocks(c), Chunks(c), i) == ChunkLo(c, i);
      assert Partition.Lo(Blocks(c), Chunks(c), j) == ChunkLo(c, j);
    }
  }

  /** Where each chunk's keys begin, and after the last one where they end. */
  function KeyCuts(c: Call): (cuts: seq<nat>)
    requires c.Span()
    ensures |cuts| == Chunks(c) + 1
  {
    seq(Chunks(c) + 1, (i: nat) => Cut(c, ChunkLo(c, i)))
  }

  ghost predicate Tiles(c: Call, cuts: seq<nat>) {
    && |cuts| >= 2 && cuts[0] == c.firstKey && cuts[|cuts| - 1] == c.qOffset + 1
    && forall i, j | 0 <= i && j == i + 1 < |cuts| :: c.firstKey <= cuts[i] < cuts[j]
  }

  lemma CutsTile(c: Call)
    requires c.Span() && c.qLen == 1
    ensures Tiles(c, KeyCuts(c))
  {
    ChunksTile(c);
    var cuts := KeyCuts(c);
    forall i, j | 0 <= i && j == i + 1 < |cuts| ensures c.firstKey <= cuts[i] < cuts[j] {
      assert Cut(c, ChunkLo(c, i)) < Cut(c, ChunkLo(c, j));
    }
  }

  /** One unit's block of partials: the triples of KV head `u` over chunk `i`. */
  ghost predicate UnitSlots(part: seq<seq<Float>>, c: Call, e: real -> real, cuts: seq<nat>, u: nat, i: nat)
    requires i + 1 < |cuts|
  {
    |part| == c.group && GroupSlots(part, c, e, u * c.group, u, cuts[i], cuts[i + 1], 0, c.group)
  }

  /** The units below `n`: unit `n` is chunk `n % C` of KV head `n / C`. */
  ghost predicate UnitsBelow(partials: seq<seq<seq<Float>>>, c: Call, e: real -> real, cuts: seq<nat>, n: nat)
    requires |cuts| >= 2
  {
    n <= |partials|
    && forall unit: nat | unit < n ::
         UnitSlots(partials[unit], c, e, cuts, unit / (|cuts| - 1), unit % (|cuts| - 1))
  }

  /** KV head `u` walks the blocks of chunk `i`. */
  method DecodeChunk(c: Call, e: real -> real, u: nat, i: nat, ghost cuts: seq<nat>) returns (part: array<seq<Float>>)
    requires ExpLaws(e) && c.Ready() && c.qLen == 1 && cuts == KeyCuts(c) && u < c.nHeadKv && i + 1 < |cuts|
    ensures fresh(part) && UnitSlots(part[..], c, e, cuts, u, i)
  {
    part := new seq<Float>[c.group];
    ChunksTile(c);
    MulMono(u, c.nHeadKv, c.group);
    DecodeUnit(part, c, e, u * c.group, u, ChunkLo(c, i), ChunkLo(c, i + 1));
  }

  /** The first parallel region of the decode: `C` chunks for every KV head. */
  method DecodeChunks(partials: array<seq<seq<Float>>>, c: Call, e: real -> real, C: nat, ghost cuts: seq<nat>)
    requires ExpLaws(e) && c.Ready() && c.qLen == 1 && C >= 1 && |cuts| == C + 1 && cuts == KeyCuts(c)
    requires partials.Length == c.nHeadKv * C
    modifies partials
    ensures UnitsBelow(partials[..], c, e, cuts, partials.Length)
  {
    for unit := 0 to partials.Length
      invariant UnitsBelow(partials[..], c, e, cuts, unit)
    {
      var u := unit / C;
      var i := unit - u * C;
      FlatUnit(unit, c.nHeadKv, C, 1);
      var part := DecodeChunk(c, e, u, i, cuts);
      partials[unit] := part[..];
    }
  }

  /** Every chunk's triples, in the layout the merge reads. */
  ghost predicate AllUnits(partials: seq<seq<seq<Float>>>, c: Call, e: real -> real, cuts: seq<nat>) {
    && Tiles(c, cuts)
    && |partials| == c.nHeadKv * (|cuts| - 1)
    && UnitsBelow(partials, c, e, cuts, |partials|)
  }

  /** Read one chunk's triple. */
  method ReadPart(partials: seq<seq<seq<Float>>>, c: Call, ghost e: real -> real, C: nat, ghost cuts: seq<nat>,
                  u: nat, i: nat, g: nat)
    returns (cells: seq<Float>)
    requires AllUnits(partials, c, e, cuts) && |cuts| == C + 1 && u < c.nHeadKv && i < C && g < c.group
    ensures |cells| == c.d + 2 && Rep(cells, e, RowStream(c, 0, u * c.group + g, u), cuts[i], cuts[i + 1])
  {
    FlatIn(u, i, c.nHeadKv, C);
    Flat(u, i, C);
    assert UnitSlots(partials[u * C + i], c, e, cuts, u, i);
    assert GroupSlot(partials[u * C + i], c, e, u * c.group, u, cuts[i], cuts[i + 1], g);
    cells := partials[u * C + i][g];
  }

  /** The largest of the chunks' maxima is the maximum over the whole span. */
  method LargestMax(parts: seq<seq<seq<Float>>>, c: Call, ghost e: real -> real, C: nat, ghost cuts: seq<nat>, u: nat, g: nat)
    returns (gm: real)
    requires ExpLaws(e) && AllUnits(parts, c, e, cuts) && |cuts| == C + 1 && u < c.nHeadKv && g < c.group
    ensures Fin(gm) == Peak(RowStream(c, 0, u * c.group + g, u).x, c.firstKey, c.qOffset + 1)
  {
    ghost var f := RowStream(c, 0, u * c.group + g, u);
    var best := NegInf;
    for i := 0 to C
      invariant best == Peak(f.x, c.firstKey, cuts[i])
      invariant i > 0 ==> best.Fin?
    {
      var cells := ReadPart(parts, c, e, C, cuts, u, i, g);
      var mm := cells[0];
      PeakStep(cells, e, f, c.firstKey, cuts[i], cuts[i + 1], best);
      if Above(mm.r, best) {
        best := mm;
      }
    }
    gm := best.r;
  }

  function Plus(a: real, b: real, w: real): real { a + b * w }

  /** `gacc[z] += parts[2 + z] * w`. */
  method AddPart(gacc: array<real>, cells: seq<Float>, w: real)
    requires |cells| == gacc.Length + 2 && Triple(cells)
    modifies gacc
    ensures forall z | 0 <= z < gacc.Length :: gacc[z] == Plus(old(gacc[z]), cells[2 + z].r, w)
  {
    for z := 0 to gacc.Length
      invariant forall y | 0 <= y < z :: gacc[y] == Plus(old(gacc[y]), cells[2 + y].r, w)
      invariant forall y | z <= y < gacc.Length :: gacc[y] == old(gacc[y])
    {
      gacc[z] := gacc[z] + cells[2 + z].r * w;
    }
  }

  /** Totals over `[firstKey, hi)` relative to `gm`. */
  ghost predicate Totals(gd: real, gacc: seq<real>, e: real -> real, f: Stream, lo: nat, hi: nat, gm: real) {
    gd == Mass(e, f.x, lo, hi, gm)
    && forall z | 0 <= z < |gacc| :: gacc[z] == Sum(e, f.x, f.v(z), lo, hi, gm)
  }

  lemma CellGrows(acc: real, cells: seq<Float>, z: nat, e: real -> real, f: Stream, lo: nat, mid: nat, hi: nat, gm: real)
    requires ExpLaws(e) && lo <= mid < hi && z + 2 < |cells| && Rep(cells, e, f, mid, hi) && cells[0].Fin?
    requires acc == Sum(e, f.x, f.v(z), lo, mid, gm)
    ensures cells[2 + z].Fin? && Plus(acc, cells[2 + z].r, e(cells[0].r - gm)) == Sum(e, f.x, f.v(z), lo, hi, gm)
  {
    var a := 2 + z;
    assert cells[a] == Fin(Sum(e, f.x, f.v(a - 2), mid, hi, cells[0].r));
    MergeStep(e, f.x, f.v(z), lo, mid, hi, cells[0].r, gm);
  }

  lemma TotalsGrow(gd: real, gacc: seq<real>, gd': real, gacc': seq<real>, cells: seq<Float>,
                   e: real -> real, f: Stream, lo: nat, mid: nat, hi: nat, gm: real)
    requires ExpLaws(e) && lo <= mid < hi && Totals(gd, gacc, e, f, lo, mid, gm)
    requires |cells| == |gacc| + 2 && |gacc'| == |gacc| && Rep(cells, e, f, mid, hi) && cells[0].Fin?
    requires gd' == Plus(gd, cells[1].r, e(cells[0].r - gm))
    requires forall z | 0 <= z < |gacc| :: gacc'[z] == Plus(gacc[z], cells[2 + z].r, e(cells[0].r - gm))
    ensures Totals(gd', gacc', e, f, lo, hi, gm)
  {
    MergeStep(e, f.x, f.v(0), lo, mid, hi, cells[0].r, gm);
    forall z | 0 <= z < |gacc| ensures gacc'[z] == Sum(e, f.x, f.v(z), lo, hi, gm) {
      CellGrows(gacc[z], cells, z, e, f, lo, mid, hi, gm);
    }
  }

  /** The output cells from `at` on hold the average over keys `[lo, hi)`. */
  ghost predicate RowOut(out: seq<real>, at: nat, d: nat, e: real -> real, f: Stream, lo: nat, hi: nat) {
    at + d <= |out| && forall z: nat | z < d :: CellOut(out, at, z, e, f, lo, hi)
  }

  ghost predicate CellOut(out: seq<real>, at: nat, z: nat, e: real -> real, f: Stream, lo: nat, hi: nat) {
    at + z < |out| && out[at + z] == Average(e, f.x, f.v(z), lo, hi)
  }

  lemma RowOutKept(out: seq<real>, out': seq<real>, at: nat, d: nat, e: real -> real, f: Stream, lo: nat, hi: nat)
    requires RowOut(out, at, d, e, f, lo, hi) && |out'| == |out|
    requires forall a | at <= a < at + d :: out'[a] == out[a]
    ensures RowOut(out', at, d, e, f, lo, hi)
  {
    forall z: nat | z < d ensures CellOut(out', at, z, e, f, lo, hi) {
      assert CellOut(out, at, z, e, f, lo, hi);
    }
  }

  lemma NormalCell(g: real, gd: real, z: nat, e: real -> real, f: Stream, lo: nat, hi: nat, gm: real)
    requires ExpLaws(e) && lo < hi && gd == Mass(e, f.x, lo, hi, gm) && g == Sum(e, f.x, f.v(z), lo, hi, gm)
    ensures gd > 0.0 && g * (1.0 / gd) == Average(e, f.x, f.v(z), lo, hi)
  {
    AverageAt(e, f.x, f.v(z), lo, hi, gm);
    TimesInverse(g, gd);
  }

  /** `dst[z] = gacc[z] * inv`. */
  method Normalize(out: array<real>, at: nat, gacc: seq<real>, gd: real, ghost e: real -> real, ghost f: Stream,
                   ghost lo: nat, ghost hi: nat, ghost gm: real)
    requires ExpLaws(e) && lo < hi && at + |gacc| <= out.Length && Totals(gd, gacc, e, f, lo, hi, gm)
    modifies out
    ensures RowOut(out[..], at, |gacc|, e, f, lo, hi)
    ensures forall a | 0 <= a < out.Length && !(at <= a < at + |gacc|) :: out[a] == old(out[a])
  {
    NormalCell(Sum(e, f.x, f.v(0), lo, hi, gm), gd, 0, e, f, lo, hi, gm);
    var inv := 1.0 / gd;
    for z := 0 to |gacc|
      invariant RowOut(out[..], at, z, e, f, lo, hi)
      invariant forall a | 0 <= a < out.Length && !(at <= a < at + |gacc|) :: out[a] == old(out[a])
    {
      ghost var before := out[..];
      NormalCell(gacc[z], gd, z, e, f, lo, hi, gm);
      out[at + z] := gacc[z] * inv;
      RowOutKept(before, out[..], at, z, e, f, lo, hi);
      assert CellOut(out[..], at, z, e, f, lo, hi);
    }
  }

  /** One chunk, rescaled onto `gm` and added. */
  method AddChunk(gd: real, gacc: array<real>, cells: seq<Float>, e: real -> real, ghost f: Stream,
                  ghost lo: nat, ghost mid: nat, ghost hi: nat, gm: real) returns (gd': real)
    requires ExpLaws(e) && lo <= mid < hi && |cells| == gacc.Length + 2 && Rep(cells, e, f, mid, hi)
    requires Totals(gd, gacc[..], e, f, lo, mid, gm)
    modifies gacc
    ensures Totals(gd', gacc[..], e, f, lo, hi, gm)
  {
    PeakStep(cells, e, f, lo, mid, hi, Peak(f.x, lo, mid));
    ghost var before := gacc[..];
    var w := e(cells[0].r - gm);
    gd' := gd + cells[1].r * w;
    AddPart(gacc, cells, w);
    TotalsGrow(gd, before, gd', gacc[..], cells, e, f, lo, mid, hi, gm);
  }

  /** Denominator and weighted sum of one query head over the whole span. */
  method MergeChunks(parts: seq<seq<seq<Float>>>, c: Call, e: real -> real, C: nat, ghost cuts: seq<nat>, u: nat, g: nat, gm: real)
    returns (gd: real, sums: seq<real>)
    requires ExpLaws(e) && AllUnits(parts, c, e, cuts) && |cuts| == C + 1 && u < c.nHeadKv && g < c.group
    ensures |sums| == c.d && Totals(gd, sums, e, RowStream(c, 0, u * c.group + g, u), c.firstKey, c.qOffset + 1, gm)
  {
    ghost var f := RowStream(c, 0, u * c.group + g, u);
    gd := 0.0;
    var gacc := new real[c.d](_ => 0.0);
    for i := 0 to C
      invariant Totals(gd, gacc[..], e, f, c.firstKey, cuts[i], gm)
    {
      var cells := ReadPart(parts, c, e, C, cuts, u, i, g);
      gd := AddChunk(gd, gacc, cells, e, f, c.firstKey, cuts[i], cuts[i + 1], gm);
    }
    sums := gacc[..];
  }

  /** Query row `t` of head `h` is done: it averages the keys `[firstKey, hi)` of KV
      head `kv`. */
  ghost predicate Done(out: seq<real>, c: Call, e: real -> real, t: nat, h: nat, kv: nat, hi: nat) {
    RowOut(out, c.QueryAt(t, h), c.d, e, RowStream(c, t, h, kv), c.firstKey, hi)
  }

  /** The second parallel region: one query head's chunks become one output row. */
  method MergeHead(parts: seq<seq<seq<Float>>>, c: Call, e: real -> real, C: nat, ghost cuts: seq<nat>, u: nat, g: nat, out: array<real>)
    requires ExpLaws(e) && c.Ready() && c.qLen == 1 && AllUnits(parts, c, e, cuts) && |cuts| == C + 1
    requires u < c.nHeadKv && g < c.group && out.Length == |c.q|
    modifies out
    ensures Done(out[..], c, e, 0, u * c.group + g, u, c.qOffset + 1)
    ensures var at := c.QueryAt(0, u * c.group + g);
            forall a | 0 <= a < out.Length && !(at <= a < at + c.d) :: out[a] == old(out[a])
  {
    var gm := LargestMax(parts, c, e, C, cuts, u, g);
    var gd, sums := MergeChunks(parts, c, e, C, cuts, u, g, gm);
    FlatIn(u, g, c.nHeadKv, c.group);
    var h := u * c.group + g;
    assert c.QueryIn(0, h);
    Normalize(out, c.QueryAt(0, h), sums, gd, e, RowStream(c, 0, h, u), c.firstKey, c.qOffset + 1, gm);
  }

  lemma DoneKept(out: seq<real>, out': seq<real>, c: Call, e: real -> real, t: nat, h: nat, kv: nat, hi: nat, t': nat, h': nat)
    requires Done(out, c, e, t, h, kv, hi) && |out'| == |out| && h < c.Heads() && h' < c.Heads() && (t != t' || h != h')
    requires forall a | 0 <= a < |out| && !(c.QueryAt(t', h') <= a < c.QueryAt(t', h') + c.d) :: out'[a] == out[a]
    ensures Done(out', c, e, t, h, kv, hi)
  {
    QueryApart(c, t, h, t', h');
    RowOutKept(out, out', c.QueryAt(t, h), c.d, e, RowStream(c, t, h, kv), c.firstKey, hi);
  }

  lemma HeadSplit(c: Call, h: nat)
    requires c.Span() && h < c.Heads()
    ensures h / c.group < c.nHeadKv && h % c.group < c.group && (h / c.group) * c.group + h % c.group == h
  {
    DivMod(h, c.group);
    DivIff(h, c.group, c.nHeadKv - 1);
    assert (c.nHeadKv - 1) * c.group + c.group == c.Heads();
  }

  /** The heads below `n` of the one-token decode are done. */
  ghost predicate DoneBelow(out: seq<real>, c: Call, e: real -> real, n: nat)
    requires c.Span()
  {
    forall h: nat | h < n :: Done(out, c, e, 0, h, h / c.group, c.qOffset + 1)
  }

  lemma DoneGrows(out: seq<real>, out': seq<real>, c: Call, e: real -> real, n: nat)
    requires c.Span() && n < c.Heads() && DoneBelow(out, c, e, n) && |out'| == |out|
    requires Done(out', c, e, 0, n, n / c.group, c.qOffset + 1)
    requires forall a | 0 <= a < |out| && !(c.QueryAt(0, n) <= a < c.QueryAt(0, n) + c.d) :: out'[a] == out[a]
    ensures DoneBelow(out', c, e, n + 1)
  {
    forall h: nat | h < n + 1 ensures Done(out', c, e, 0, h, h / c.group, c.qOffset + 1) {
      if h < n {
        DoneKept(out, out', c, e, 0, h, h / c.group, c.qOffset + 1, 0, n);
      }
    }
  }

  method MergeHeads(parts: seq<seq<seq<Float>>>, c: Call, e: real -> real, C: nat, ghost cuts: seq<nat>, out: array<real>)
    requires ExpLaws(e) && c.Ready() && c.qLen == 1 && AllUnits(parts, c, e, cuts) && |cuts| == C + 1
    requires out.Length == |c.q|
    modifies out
    ensures DoneBelow(out[..], c, e, c.Heads())
  {
    for h := 0 to c.Heads()
      invariant DoneBelow(out[..], c, e, h)
    {
      HeadSplit(c, h);
      ghost var before := out[..];
      MergeHead(parts, c, e, C, cuts, h / c.group, h % c.group, out);
      DoneGrows(before, out[..], c, e, h);
    }
  }

  method DecodeSpan(c: Call, e: real -> real) returns (parts: array<seq<seq<Float>>>, C: nat, ghost cuts: seq<nat>)
    requires ExpLaws(e) && c.Ready() && c.qLen == 1
    ensures fresh(parts) && AllUnits(parts[..], c, e, cuts) && |cuts| == C + 1
  {
    C := Chunks(c);
    cuts := KeyCuts(c);
    CutsTile(c);
    MulSign(c.nHeadKv, C);
    parts := new seq<seq<Float>>[c.nHeadKv * C];
    DecodeChunks(parts, c, e, C, cuts);
  }

  /** Main result: the one-token decode -- blocks of 128, up to eight chunks, online
      folding, log-sum-exp merge -- leaves in every head the softmax-weighted
      average of exactly the keys `[firstKey, qOffset]` of the KV head it shares.
      A group wider than the score array is refused and nothing is written. */
  method Decode(c: Call, e: real -> real, out: array<real>) returns (ok: bool)
    requires ExpLaws(e) && c.Valid() && c.qLen == 1 && out.Length == |c.q|
    modifies out
    ensures ok <==> c.group <= 8
    ensures !ok ==> out[..] == old(out[..])
    ensures ok ==> forall h: nat | h < c.Heads() :: Done(out[..], c, e, 0, h, h / c.group, c.qOffset + 1)
  {
    if c.group > MAX_GROUP {
      return false;
    }
    ok := true;
    AllInside(c, c.Rows());
    ghost var cuts;
    var parts, C;
    parts, C, cuts := DecodeSpan(c, e);
    MergeHeads(parts[..], c, e, C, cuts, out);
  }
}
