/** Packing four quantized activation rows into one interleaved block: a bijection of
    bytes, whose per-row group sums land where the tile layout reads them. */
module Q8Pack {
  import opened Arith
  import opened Q4KBlock
  import opened Simd

  ghost predicate Rows(rows: seq<seq<int>>) {
    |rows| == 4 && forall m | 0 <= m < 4 :: |rows[m]| == 256 && forall w | 0 <= w < 256 :: -128 <= rows[m][w] <= 127
  }

  /** Where activation `w` of row `m` goes. */
  function PackAt(m: nat, w: nat): nat { 32 * (w / 8) + 8 * m + w % 8 }

  function RowAt(j: nat): nat { j % 32 / 8 }
  function WeightAt(j: nat): nat { 8 * (j / 32) + j % 8 }

  lemma Coordinates(a: nat, m: nat, t: nat)
    requires m < 4 && t < 8
    ensures (32 * a + 8 * m + t) / 32 == a && (32 * a + 8 * m + t) % 32 == 8 * m + t
    ensures (8 * m + t) / 8 == m && (32 * a + 8 * m + t) % 8 == t
    ensures (8 * a + t) / 8 == a && (8 * a + t) % 8 == t
  {
    Flat(a, 8 * m + t, 32);
    Flat(m, t, 8);
    Flat(4 * a + m, t, 8);
    Flat(a, t, 8);
  }

  /** The packing is a bijection between the 4 x 256 activations and 1024 bytes. */
  lemma PackIsBijection(m: nat, w: nat)
    requires m < 4 && w < 256
    ensures PackAt(m, w) < 1024 && RowAt(PackAt(m, w)) == m && WeightAt(PackAt(m, w)) == w
  {
    Coordinates(w / 8, m, w % 8);
  }

  lemma UnpackIsBijection(j: nat)
    requires j < 1024
    ensures RowAt(j) < 4 && WeightAt(j) < 256 && PackAt(RowAt(j), WeightAt(j)) == j
  {
    var a, r := j / 32, j % 32;
    var m, t := r / 8, r % 8;
    assert j == 32 * a + 8 * m + t;
    Coordinates(a, m, t);
  }

  /** The source's index of the running sum that packed byte `j` belongs to. */
  function SumIndex(j: nat): nat { j % 32 / 8 * 4 + j / 256 * 16 + j / 64 % 4 }

  /** Where group `g` of row `m` is summed. */
  function SumAt(m: nat, g: nat): nat { 4 * m + 16 * (g / 4) + g % 4 }

  /** Every byte of a sixteen-weight group adds to the entry of that group. */
  lemma SumsArePlaced(m: nat, w: nat)
    requires m < 4 && w < 256
    ensures SumIndex(PackAt(m, w)) == SumAt(m, w / 16) < 64
  {
    var a, t := w / 8, w % 8;
    Coordinates(a, m, t);
    Halved(a, t, 8 * m + t);
    SumsApart(m, w / 16);
  }

  /** The same group number, read off the packed address or off the weight. */
  lemma Halved(a: nat, t: nat, r: nat)
    requires t < 8 && r < 32
    ensures (32 * a + r) / 64 == (8 * a + t) / 16 && (32 * a + r) / 256 == (8 * a + t) / 16 / 4
  {
    var b, c := a / 2, a % 2;
    var e, f := b / 4, b % 4;
    Flat(b, 32 * c + r, 64);
    Flat(b, 8 * c + t, 16);
    Flat(e, 64 * f + 32 * c + r, 256);
  }

  /** Which entry is whose. */
  lemma SumsApart(m: nat, g: nat)
    requires m < 4 && g < 16
    ensures SumAt(m, g) < 64 && SumAt(m, g) % 16 / 4 == m && 4 * (SumAt(m, g) / 16) + SumAt(m, g) % 4 == g
  {
    var hi, lo := g / 4, g % 4;
    Flat(hi, 4 * m + lo, 16);
    Flat(m, lo, 4);
    Flat(4 * hi + m, lo, 4);
  }

  /** A placement of a grid into `size` cells: in bounds and one-to-one. */
  ghost predicate Placed(at: (nat, nat) -> nat, rows: nat, cols: nat, size: nat) {
    && (forall m: nat, w: nat | m < rows && w < cols :: at(m, w) < size)
    && forall m: nat, w: nat, m': nat, w': nat | m < rows && w < cols && m' < rows && w' < cols && at(m, w) == at(m', w') ::
         m == m' && w == w'
  }

  lemma PackPlaced()
    ensures Placed(PackAt, 4, 256, 1024)
  {
    forall m: nat, w: nat | m < 4 && w < 256 ensures PackAt(m, w) < 1024 {
      PackIsBijection(m, w);
    }
    forall m: nat, w: nat, m': nat, w': nat | m < 4 && w < 256 && m' < 4 && w' < 256 && PackAt(m, w) == PackAt(m', w')
      ensures m == m' && w == w'
    {
      PackIsBijection(m, w);
      PackIsBijection(m', w');
    }
  }

  lemma SumPlaced()
    ensures Placed(SumAt, 4, 16, 64)
  {
    forall m: nat, g: nat | m < 4 && g < 16 ensures SumAt(m, g) < 64 {
      SumsApart(m, g);
    }
    forall m: nat, g: nat, m': nat, g': nat | m < 4 && g < 16 && m' < 4 && g' < 16 && SumAt(m, g) == SumAt(m', g')
      ensures m == m' && g == g'
    {
      SumsApart(m, g);
      SumsApart(m', g');
    }
  }

  /** How much of group `g` the weights below `w` cover. */
  function Covered(w: nat, g: nat): (n: nat)
    ensures n <= 16
  {
    if w <= 16 * g then 0 else if w >= 16 * g + 16 then 16 else w - 16 * g
  }

  /** The partial sum of group `g` of row `m` once weight `w` of row `cur` is next. */
  function Partial(rows: seq<seq<int>>, cur: nat, w: nat, m: nat, g: nat): int
    requires Rows(rows) && m < 4 && g < 16
  {
    SumRun(rows[m], 16 * g, if m < cur then 16 else if m == cur then Covered(w, g) else 0)
  }

  ghost predicate SumsHold(at: (nat, nat) -> nat, bsums: seq<int>, rows: seq<seq<int>>, cur: nat, w: nat)
    requires Rows(rows) && Placed(at, 4, 16, 64)
  {
    |bsums| == 64 && forall m: nat, g: nat | m < 4 && g < 16 :: bsums[at(m, g)] == Partial(rows, cur, w, m, g)
  }

  /** One entry: its own sum takes the next weight, the others stay. */
  lemma EntryStep(bsum: int, bsum': int, rows: seq<seq<int>>, cur: nat, g: nat, r: nat, w: nat, m: nat, h: nat)
    requires Rows(rows) && cur < 4 && g < 16 && r < 16 && w == 16 * g + r && m < 4 && h < 16
    requires bsum == Partial(rows, cur, w, m, h)
    requires bsum' == if m == cur && h == g then Wrap16(bsum + rows[cur][w]) else bsum
    ensures bsum' == Partial(rows, cur, w + 1, m, h)
  {
    if m == cur && h == g {
      SumRunBound(rows[cur], 16 * g, r + 1);
      NoWrap(SumRun(rows[cur], 16 * g, r + 1));
    } else if m == cur {
      assert Covered(w + 1, h) == Covered(w, h);
    }
  }

  lemma SumStep(at: (nat, nat) -> nat, bsums: seq<int>, bsums': seq<int>, rows: seq<seq<int>>, cur: nat, g: nat, r: nat)
    requires Rows(rows) && Placed(at, 4, 16, 64) && cur < 4 && g < 16 && r < 16
    requires SumsHold(at, bsums, rows, cur, 16 * g + r)
    requires bsums' == bsums[at(cur, g) := Wrap16(bsums[at(cur, g)] + rows[cur][16 * g + r])]
    ensures SumsHold(at, bsums', rows, cur, 16 * g + r + 1)
  {
    var w := 16 * g + r;
    forall m: nat, h: nat | m < 4 && h < 16 ensures bsums'[at(m, h)] == Partial(rows, cur, w + 1, m, h) {
      EntryStep(bsums[at(m, h)], bsums'[at(m, h)], rows, cur, g, r, w, m, h);
    }
  }

  ghost predicate PackedBefore(at: (nat, nat) -> nat, qs: seq<int>, rows: seq<seq<int>>, cur: nat, w: nat)
    requires Rows(rows) && Placed(at, 4, 256, 1024)
  {
    |qs| == 1024
    && forall m': nat, w': nat | m' < 4 && w' < 256 && (m' < cur || (m' == cur && w' < w)) :: qs[at(m', w')] == rows[m'][w']
  }

  lemma PackStep(at: (nat, nat) -> nat, qs: seq<int>, qs': seq<int>, rows: seq<seq<int>>, cur: nat, w: nat)
    requires Rows(rows) && Placed(at, 4, 256, 1024) && cur < 4 && w < 256 && PackedBefore(at, qs, rows, cur, w)
    requires qs' == qs[at(cur, w) := rows[cur][w]]
    ensures PackedBefore(at, qs', rows, cur, w + 1)
  {
  }

  lemma RowDone(at: (nat, nat) -> nat, bsums: seq<int>, rows: seq<seq<int>>, cur: nat)
    requires Rows(rows) && Placed(at, 4, 16, 64) && cur < 4 && SumsHold(at, bsums, rows, cur, 256)
    ensures SumsHold(at, bsums, rows, cur + 1, 0)
  {
    forall m: nat, g: nat | m < 4 && g < 16 ensures bsums[at(m, g)] == Partial(rows, cur + 1, 0, m, g) {
      assert bsums[at(m, g)] == Partial(rows, cur, 256, m, g);
    }
  }

  /** The two addresses, as the source computes them. */
  method Addresses(m: nat, w: nat) returns (j: nat, index: nat)
    requires m < 4 && w < 256
    ensures j == PackAt(m, w) < 1024 && index == SumAt(m, w / 16) < 64
  {
    j := 32 * (w / 8) + 8 * m + w % 8;
    index := SumIndex(j);
    PackIsBijection(m, w);
    SumsArePlaced(m, w);
  }

  method StoreByte(q: array<int>, j: nat, rows: seq<seq<int>>, m: nat, w: nat)
    requires Rows(rows) && m < 4 && w < 256 && Placed(PackAt, 4, 256, 1024) && j == PackAt(m, w) < 1024
    requires PackedBefore(PackAt, q[..], rows, m, w)
    modifies q
    ensures PackedBefore(PackAt, q[..], rows, m, w + 1)
  {
    ghost var before := q[..];
    q[j] := rows[m][w];
    PackStep(PackAt, before, q[..], rows, m, w);
  }

  method AddToSum(b: array<int>, index: nat, rows: seq<seq<int>>, m: nat, w: nat, ghost g: nat, ghost r: nat)
    requires Rows(rows) && m < 4 && g < 16 && r < 16 && w == 16 * g + r && Placed(SumAt, 4, 16, 64)
    requires index == SumAt(m, g) < 64 && SumsHold(SumAt, b[..], rows, m, w)
    modifies b
    ensures SumsHold(SumAt, b[..], rows, m, w + 1)
  {
    ghost var before := b[..];
    b[index] := Wrap16(b[index] + rows[m][w]);
    SumStep(SumAt, before, b[..], rows, m, g, r);
  }

  method PackRow(q: array<int>, b: array<int>, rows: seq<seq<int>>, m: nat)
    requires Rows(rows) && m < 4 && q != b && Placed(PackAt, 4, 256, 1024) && Placed(SumAt, 4, 16, 64)
    requires PackedBefore(PackAt, q[..], rows, m, 0) && SumsHold(SumAt, b[..], rows, m, 0)
    modifies q, b
    ensures PackedBefore(PackAt, q[..], rows, m + 1, 0) && SumsHold(SumAt, b[..], rows, m + 1, 0)
  {
    for w := 0 to 256
      invariant PackedBefore(PackAt, q[..], rows, m, w) && SumsHold(SumAt, b[..], rows, m, w)
    {
      var j, index := Addresses(m, w);
      StoreByte(q, j, rows, m, w);
      AddToSum(b, index, rows, m, w, w / 16, w % 16);
    }
    RowDone(SumAt, b[..], rows, m);
  }

  /** Main result: one packed block holds every activation once, and its 64 sums are
      the exact sums by sixteens of the four rows; no int16 sum wraps. */
  method PackBlock(rows: seq<seq<int>>) returns (qs: seq<int>, bsums: seq<int>)
    requires Rows(rows)
    ensures |qs| == 1024
    ensures forall m: nat, w: nat | m < 4 && w < 256 :: PackAt(m, w) < 1024 && qs[PackAt(m, w)] == rows[m][w]
    ensures |bsums| == 64
    ensures forall m: nat, g: nat | m < 4 && g < 16 :: SumAt(m, g) < 64 && bsums[SumAt(m, g)] == SumRun(rows[m], 16 * g, 16)
  {
    PackPlaced();
    SumPlaced();
    var q := new int[1024];
    var b := new int[64](_ => 0);
    for m := 0 to 4
      invariant PackedBefore(PackAt, q[..], rows, m, 0) && SumsHold(SumAt, b[..], rows, m, 0)
    {
      PackRow(q, b, rows, m);
    }
    qs, bsums := q[..], b[..];
    forall m: nat, g: nat | m < 4 && g < 16 ensures SumAt(m, g) < 64 && bsums[SumAt(m, g)] == SumRun(rows[m], 16 * g, 16) {
      assert bsums[SumAt(m, g)] == Partial(rows, 4, 0, m, g);
    }
  }
}
