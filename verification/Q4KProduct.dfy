/** The panel matrix-vector product over a whole repacked matrix, and the row kernel
    on the original blocks, both against the exact per-block integers. */
module Q4KProduct {
  import opened Arith
  import opened Q4KBlock
  import opened Q4KPanel
  import opened Simd
  import opened Q4KGemv
  import opened Q4KColumns

  /** The float operations, left uninterpreted: equal results mean the same operation
      tree. */
  datatype Ops<!F> = Ops(zero: F, mul: (F, F) -> F, add: (F, F) -> F, sub: (F, F) -> F, neg: F -> F,
                         fma: (F, F, F) -> F, ofInt: int -> F, half: (bv8, bv8) -> F)

  /** Block `b` of column `c` is `tiles[b][c]`. */
  ghost predicate Tiles<F>(tiles: seq<seq<Bytes>>, acts: seq<Act<F>>) {
    |tiles| == |acts| && (forall b | 0 <= b < |tiles| :: Columns(tiles[b])) && forall b | 0 <= b < |acts| :: acts[b].Valid()
  }

  /** A column's scaled dot products, block by block: exact integers, one fused
      multiply-add each. */
  ghost function MainAcc<F>(ops: Ops<F>, tiles: seq<seq<Bytes>>, acts: seq<Act<F>>, c: nat, n: nat): F
    requires Tiles(tiles, acts) && c < 8 && n <= |tiles|
  {
    if n == 0 then ops.zero
    else
      var block, act := tiles[n - 1][c], acts[n - 1];
      ops.fma(ops.ofInt(BlockDot(block, act.qs, 8)), ops.mul(ops.half(block[0], block[1]), act.d),
              MainAcc(ops, tiles, acts, c, n - 1))
  }

  ghost function MinAcc<F>(ops: Ops<F>, tiles: seq<seq<Bytes>>, acts: seq<Act<F>>, c: nat, n: nat): F
    requires Tiles(tiles, acts) && c < 8 && n <= |tiles|
  {
    if n == 0 then ops.zero
    else
      var block, act := tiles[n - 1][c], acts[n - 1];
      ops.fma(ops.ofInt(BlockMin(block, act.bsums, 8)), ops.mul(ops.half(block[2], block[3]), act.d),
              MinAcc(ops, tiles, acts, c, n - 1))
  }

  ghost function ColumnValue<F>(ops: Ops<F>, tiles: seq<seq<Bytes>>, acts: seq<Act<F>>, c: nat): F
    requires Tiles(tiles, acts) && c < 8
  {
    ops.sub(MainAcc(ops, tiles, acts, c, |tiles|), MinAcc(ops, tiles, acts, c, |tiles|))
  }

  // ----- the float lanes -----

  function Flatten(words: seq<Bytes>): (r: Bytes)
    requires |words| == 8 && forall i | 0 <= i < 8 :: |words[i]| == 2
    ensures |r| == 16
  {
    seq(16, (i: nat) requires i < 16 => words[i / 2][i % 2])
  }

  /** Eight halves converted. */
  function Halves<F>(ops: Ops<F>, bytes: Bytes): (r: seq<F>)
    requires |bytes| == 16
    ensures |r| == 8
  {
    seq(8, (d: nat) requires d < 8 => ops.half(bytes[2 * d], bytes[2 * d + 1]))
  }

  lemma FlatAt(words: seq<Bytes>, c: nat, h: nat)
    requires |words| == 8 && (forall i | 0 <= i < 8 :: |words[i]| == 2) && c < 8 && h < 2
    ensures Flatten(words)[2 * c + h] == words[c][h]
  {
  }

  lemma DeltaByte(flat: Bytes, d: nat, h: nat)
    requires |flat| == 16 && d < 8 && h < 2
    ensures ShuffleBytes(flat, DELTA_MASK)[2 * d + h] == flat[2 * Order(d) + h]
  {
    DeltaLane(d, h);
  }

  /** The column scales, brought into lane order. */
  lemma ScaleHalf<F>(ops: Ops<F>, words: seq<Bytes>, d: nat)
    requires |words| == 8 && (forall i | 0 <= i < 8 :: |words[i]| == 2) && d < 8
    ensures Halves(ops, ShuffleBytes(Flatten(words), DELTA_MASK))[d] == ops.half(words[Order(d)][0], words[Order(d)][1])
  {
    DeltaByte(Flatten(words), d, 0);
    DeltaByte(Flatten(words), d, 1);
    FlatAt(words, Order(d), 0);
    FlatAt(words, Order(d), 1);
  }

  lemma MinHalf<F>(ops: Ops<F>, words: seq<Bytes>, c: nat)
    requires |words| == 8 && (forall i | 0 <= i < 8 :: |words[i]| == 2) && c < 8
    ensures Halves(ops, Flatten(words))[c] == ops.half(words[c][0], words[c][1])
  {
    FlatAt(words, c, 0);
    FlatAt(words, c, 1);
  }

  /** `acc = fma(convert(v), scale * rowScale, acc)`, lane by lane. */
  function FmaLanes<F>(ops: Ops<F>, v: seq<int>, scale: seq<F>, rowScale: F, acc: seq<F>): (r: seq<F>)
    requires |v| == |scale| == |acc| == 8
    ensures |r| == 8
  {
    seq(8, (d: nat) requires d < 8 => ops.fma(ops.ofInt(v[d]), ops.mul(scale[d], rowScale), acc[d]))
  }

  ghost predicate MainLanes<F>(acc: seq<F>, ops: Ops<F>, tiles: seq<seq<Bytes>>, acts: seq<Act<F>>, n: nat)
    requires Tiles(tiles, acts) && n <= |tiles|
  {
    |acc| == 8 && forall d: nat | d < 8 :: acc[d] == MainAcc(ops, tiles, acts, Order(d), n)
  }

  ghost predicate MinLanesAre<F>(acc: seq<F>, ops: Ops<F>, tiles: seq<seq<Bytes>>, acts: seq<Act<F>>, n: nat)
    requires Tiles(tiles, acts) && n <= |tiles|
  {
    |acc| == 8 && forall c: nat | c < 8 :: acc[c] == MinAcc(ops, tiles, acts, c, n)
  }

  /** The scale words of a panel. */
  ghost predicate WordsOf(words: seq<Bytes>, cols: seq<Bytes>, at: nat)
    requires Columns(cols) && at <= 2
  {
    |words| == 8 && forall r | 0 <= r < 8 :: words[r] == cols[r][at..at + 2]
  }

  lemma MainStep<F>(ops: Ops<F>, acc: seq<F>, dots: seq<int>, words: seq<Bytes>, tiles: seq<seq<Bytes>>, acts: seq<Act<F>>, b: nat)
    requires Tiles(tiles, acts) && b < |tiles| && MainLanes(acc, ops, tiles, acts, b)
    requires Dots(dots, tiles[b], acts[b].qs, 8) && WordsOf(words, tiles[b], 0)
    ensures MainLanes(FmaLanes(ops, dots, Halves(ops, ShuffleBytes(Flatten(words), DELTA_MASK)), acts[b].d, acc),
                      ops, tiles, acts, b + 1)
  {
    var scale := Halves(ops, ShuffleBytes(Flatten(words), DELTA_MASK));
    var r := FmaLanes(ops, dots, scale, acts[b].d, acc);
    forall d: nat | d < 8 ensures r[d] == MainAcc(ops, tiles, acts, Order(d), b + 1) {
      ScaleHalf(ops, words, d);
    }
  }

  lemma MinLaneStep<F>(ops: Ops<F>, acc: seq<F>, mins: seq<int>, words: seq<Bytes>, tiles: seq<seq<Bytes>>, acts: seq<Act<F>>, b: nat)
    requires Tiles(tiles, acts) && b < |tiles| && MinLanesAre(acc, ops, tiles, acts, b)
    requires Mins(mins, tiles[b], acts[b].bsums, 8) && WordsOf(words, tiles[b], 2)
    ensures MinLanesAre(FmaLanes(ops, mins, Halves(ops, Flatten(words)), acts[b].d, acc), ops, tiles, acts, b + 1)
  {
    var scale := Halves(ops, Flatten(words));
    var r := FmaLanes(ops, mins, scale, acts[b].d, acc);
    forall c: nat | c < 8 ensures r[c] == MinAcc(ops, tiles, acts, c, b + 1) {
      MinHalf(ops, words, c);
    }
  }

  /** Eight outputs: one activation row against one row of panels. */
  method GemvTile<F>(ops: Ops<F>, panels: seq<Panel>, ghost tiles: seq<seq<Bytes>>, acts: seq<Act<F>>) returns (out: seq<F>)
    requires Tiles(tiles, acts) && |panels| == |tiles|
    requires forall b | 0 <= b < |tiles| :: IsPanelOf(panels[b], tiles[b])
    ensures |out| == 8 && forall c: nat | c < 8 :: out[c] == ColumnValue(ops, tiles, acts, c)
  {
    var accRow, accMin := seq(8, _ => ops.zero), seq(8, _ => ops.zero);
    for b := 0 to |panels|
      invariant MainLanes(accRow, ops, tiles, acts, b) && MinLanesAre(accMin, ops, tiles, acts, b)
    {
      var o, act := panels[b], acts[b];
      var dots, mins := PanelBlock(o, tiles[b], act);
      MainStep(ops, accRow, dots, o.d, tiles, acts, b);
      MinLaneStep(ops, accMin, mins, o.dmin, tiles, acts, b);
      accRow := FmaLanes(ops, dots, Halves(ops, ShuffleBytes(Flatten(o.d), DELTA_MASK)), act.d, accRow);
      accMin := FmaLanes(ops, mins, Halves(ops, Flatten(o.dmin)), act.d, accMin);
    }
    out := seq(8, (c: nat) requires c < 8 => ops.sub(accRow[FINAL_PERMUTE[c]], accMin[c]));
    forall c: nat | c < 8 ensures out[c] == ColumnValue(ops, tiles, acts, c) {
      FinalUndoes(c);
    }
  }

  // ----- the whole product -----

  /** The blocks of panel row `x`: block `b` of weight row `x * 8 + c`. */
  ghost function TilesOf(blocks: Bytes, rows: nat, nb: nat, x: nat): (tiles: seq<seq<Bytes>>)
    requires Matrix(blocks, rows, nb) && x < rows / 8
    ensures |tiles| == nb && forall b | 0 <= b < nb :: Columns(tiles[b])
  {
    seq(nb, (b: nat) requires b < nb => PanelColumns(blocks, rows, nb, x, b))
  }

  /** The blocks of activation row `y`. */
  function ActRow<F>(acts: seq<Act<F>>, nb: nat, y: nat): (row: seq<Act<F>>)
    requires RowFits(|acts|, nb, y)
    ensures |row| == nb
  {
    MulSign(y, nb);
    acts[y * nb..y * nb + nb]
  }

  predicate RowFits(n: nat, nb: nat, y: nat) { y * nb + nb <= n }

  ghost predicate ActsFit<F>(acts: seq<Act<F>>, nr: nat, nb: nat) {
    && (forall y: nat | y < nr :: RowFits(|acts|, nb, y))
    && forall i | 0 <= i < |acts| :: acts[i].Valid()
  }

  /** The output for activation row `y` and weight row `x * 8 + c`. */
  ghost function Output<F>(ops: Ops<F>, blocks: Bytes, rows: nat, nb: nat, acts: seq<Act<F>>, nr: nat, y: nat, x: nat, c: nat): F
    requires Matrix(blocks, rows, nb) && ActsFit(acts, nr, nb) && y < nr && x < rows / 8 && c < 8
  {
    assert RowFits(|acts|, nb, y);
    ColumnValue(ops, TilesOf(blocks, rows, nb, x), ActRow(acts, nb, y), c)
  }

  /** One output tile: the panels of row `x` are those of the original blocks, so the
      eight lanes are the eight weight rows' values. */
  method OutputTile<F>(ops: Ops<F>, panels: seq<Panel>, ghost blocks: Bytes, ghost rows: nat, nb: nat, acts: seq<Act<F>>,
                       ghost nr: nat, y: nat, x: nat) returns (out: seq<F>)
    requires Matrix(blocks, rows, nb) && AllPacked(panels, blocks, rows, nb) && ActsFit(acts, nr, nb)
    requires y < nr && x < rows / 8 && |panels| == rows / 8 * nb
    ensures |out| == 8 && forall c: nat | c < 8 :: out[c] == Output(ops, blocks, rows, nb, acts, nr, y, x, c)
  {
    assert RowFits(|acts|, nb, y);
    MulSign(x, nb);
    FlatUnitRow(x, rows / 8, nb);
    var row := panels[x * nb..x * nb + nb];
    ghost var tiles := TilesOf(blocks, rows, nb, x);
    forall b: nat | b < nb ensures IsPanelOf(row[b], tiles[b]) {
      assert Packed(panels, blocks, rows, nb, x, b);
    }
    out := GemvTile(ops, row, tiles, ActRow(acts, nb, y));
  }

  lemma FlatUnitRow(x: nat, n: nat, nb: nat)
    requires x < n
    ensures 0 <= x * nb && x * nb + nb <= n * nb
  {
    MulSign(x, nb);
    MulMono(x, n, nb);
  }

  /** Where output `(y, x, c)` is stored. */
  function Slot(y: nat, x: nat, c: nat, bs: nat): nat { y * bs + (x * 8 + c) }

  /** The outputs of tile `(y, x)` are stored. */
  ghost predicate TileStored<F(!new)>(s: seq<F>, ops: Ops<F>, blocks: Bytes, rows: nat, nb: nat, acts: seq<Act<F>>, nr: nat,
                                bs: nat, y: nat, x: nat)
    requires Matrix(blocks, rows, nb) && ActsFit(acts, nr, nb) && y < nr && x < rows / 8
  {
    forall c: nat | c < 8 :: Slot(y, x, c, bs) < |s| && s[Slot(y, x, c, bs)] == Output(ops, blocks, rows, nb, acts, nr, y, x, c)
  }

  lemma SlotsApart(y: nat, x: nat, c: nat, y': nat, x': nat, c': nat, bs: nat)
    requires x * 8 + c < bs && x' * 8 + c' < bs && c < 8 && c' < 8
    requires Slot(y, x, c, bs) == Slot(y', x', c', bs)
    ensures y == y' && x == x' && c == c'
  {
    Flat(y, x * 8 + c, bs);
    Flat(y', x' * 8 + c', bs);
  }

  lemma SlotIn(y: nat, x: nat, c: nat, nr: nat, bs: nat)
    requires y < nr && x * 8 + c < bs
    ensures Slot(y, x, c, bs) < nr * bs
  {
    FlatIn(y, x * 8 + c, nr, bs);
  }

  /** The tiles before `(y, x)` in the kernel's order. */
  ghost predicate StoredBefore<F(!new)>(s: seq<F>, ops: Ops<F>, blocks: Bytes, rows: nat, nb: nat, acts: seq<Act<F>>, nr: nat,
                                  bs: nat, xLo: nat, xHi: nat, y: nat, x: nat)
    requires Matrix(blocks, rows, nb) && ActsFit(acts, nr, nb) && xHi <= rows / 8
  {
    forall y': nat, x': nat | y' < nr && xLo <= x' < xHi && (y' < y || (y' == y && x' < x)) ::
      TileStored(s, ops, blocks, rows, nb, acts, nr, bs, y', x')
  }

  /** Nothing but tile `(y, x)` moves. */
  ghost predicate OnlyTile<F(!new)>(s: seq<F>, s': seq<F>, bs: nat, y: nat, x: nat) {
    |s'| == |s| && forall i | 0 <= i < |s| && !(Slot(y, x, 0, bs) <= i < Slot(y, x, 0, bs) + 8) :: s'[i] == s[i]
  }

  lemma StoredStep<F(!new)>(s: seq<F>, s': seq<F>, ops: Ops<F>, blocks: Bytes, rows: nat, nb: nat, acts: seq<Act<F>>, nr: nat,
                            bs: nat, xLo: nat, xHi: nat, y: nat, x: nat)
    requires Matrix(blocks, rows, nb) && ActsFit(acts, nr, nb) && xHi <= rows / 8 && y < nr && xLo <= x < xHi && xHi * 8 <= bs
    requires StoredBefore(s, ops, blocks, rows, nb, acts, nr, bs, xLo, xHi, y, x) && OnlyTile(s, s', bs, y, x)
    requires TileStored(s', ops, blocks, rows, nb, acts, nr, bs, y, x)
    ensures StoredBefore(s', ops, blocks, rows, nb, acts, nr, bs, xLo, xHi, y, x + 1)
  {
    forall y': nat, x': nat | y' < nr && xLo <= x' < xHi && (y' < y || (y' == y && x' < x + 1))
      ensures TileStored(s', ops, blocks, rows, nb, acts, nr, bs, y', x')
    {
      if y' != y || x' != x {
        assert TileStored(s, ops, blocks, rows, nb, acts, nr, bs, y', x');
        TileKept(s, s', ops, blocks, rows, nb, acts, nr, bs, y, x, y', x');
      }
    }
  }

  lemma TileKept<F(!new)>(s: seq<F>, s': seq<F>, ops: Ops<F>, blocks: Bytes, rows: nat, nb: nat, acts: seq<Act<F>>, nr: nat,
                          bs: nat, y: nat, x: nat, y': nat, x': nat)
    requires Matrix(blocks, rows, nb) && ActsFit(acts, nr, nb) && y' < nr && x' < rows / 8
    requires x * 8 + 8 <= bs && x' * 8 + 8 <= bs && (y' != y || x' != x) && OnlyTile(s, s', bs, y, x)
    requires TileStored(s, ops, blocks, rows, nb, acts, nr, bs, y', x')
    ensures TileStored(s', ops, blocks, rows, nb, acts, nr, bs, y', x')
  {
    forall c: nat | c < 8
      ensures Slot(y', x', c, bs) < |s'| && s'[Slot(y', x', c, bs)] == Output(ops, blocks, rows, nb, acts, nr, y', x', c)
    {
      var i := Slot(y', x', c, bs);
      if Slot(y, x, 0, bs) <= i < Slot(y, x, 0, bs) + 8 {
        SlotsApart(y, x, i - Slot(y, x, 0, bs), y', x', c, bs);
      }
    }
  }

  /** Column `j` of output row `y`. */
  function Cell(y: nat, j: nat, bs: nat): nat { y * bs + j }

  /** Nothing moves outside the columns of panels `[xLo, xHi)` in the first `nr` rows. */
  ghost predicate OthersKept<F(!new)>(s: seq<F>, s': seq<F>, nr: nat, bs: nat, xLo: nat, xHi: nat) {
    && |s'| == |s|
    && forall y: nat, j: nat | j < bs && (y >= nr || j < 8 * xLo || j >= 8 * xHi) && Cell(y, j, bs) < |s| ::
         s'[Cell(y, j, bs)] == s[Cell(y, j, bs)]
  }

  lemma KeptStep<F(!new)>(was: seq<F>, s: seq<F>, s': seq<F>, nr: nat, bs: nat, xLo: nat, xHi: nat, y: nat, x: nat)
    requires OthersKept(was, s, nr, bs, xLo, xHi) && OnlyTile(s, s', bs, y, x)
    requires y < nr && xLo <= x < xHi && 8 * xHi <= bs
    ensures OthersKept(was, s', nr, bs, xLo, xHi)
  {
    forall y': nat, j: nat | j < bs && (y' >= nr || j < 8 * xLo || j >= 8 * xHi) && Cell(y', j, bs) < |was|
      ensures s'[Cell(y', j, bs)] == was[Cell(y', j, bs)]
    {
      var i := Cell(y', j, bs);
      if Slot(y, x, 0, bs) <= i < Slot(y, x, 0, bs) + 8 {
        Flat(y', j, bs);
        Flat(y, i - Slot(y, x, 0, bs) + x * 8, bs);
      }
    }
  }

  method StoreTile<F>(s: array<F>, at: nat, out: seq<F>)
    requires |out| == 8 && at + 8 <= s.Length
    modifies s
    ensures forall i | 0 <= i < s.Length :: s[i] == if at <= i < at + 8 then out[i - at] else old(s[i])
  {
    for c := 0 to 8
      invariant forall i | 0 <= i < s.Length :: s[i] == if at <= i < at + c then out[i - at] else old(s[i])
    {
      s[at + c] := out[c];
    }
  }

  /** Main result: the panels `[xLo, xHi)` of a repacked matrix give, for every
      activation row and every column, the value built from the exact integers of the
      original blocks, at `s[y * bs + x * 8 + c]`, and write no other cell: disjoint
      panel ranges can run side by side. */
  method Gemv<F(!new)>(ops: Ops<F>, panels: seq<Panel>, ghost blocks: Bytes, ghost rows: nat, nb: nat, acts: seq<Act<F>>, nr: nat,
                       xLo: nat, xHi: nat, s: array<F>, bs: nat)
    requires Matrix(blocks, rows, nb) && AllPacked(panels, blocks, rows, nb) && |panels| == rows / 8 * nb
    requires ActsFit(acts, nr, nb) && xLo <= xHi <= rows / 8 && xHi * 8 <= bs && s.Length >= nr * bs
    modifies s
    ensures forall y: nat, x: nat | y < nr && xLo <= x < xHi :: TileStored(s[..], ops, blocks, rows, nb, acts, nr, bs, y, x)
    ensures OthersKept(old(s[..]), s[..], nr, bs, xLo, xHi)
  {
    for y := 0 to nr
      invariant StoredBefore(s[..], ops, blocks, rows, nb, acts, nr, bs, xLo, xHi, y, xLo)
      invariant OthersKept(old(s[..]), s[..], nr, bs, xLo, xHi)
    {
      for x := xLo to xHi
        invariant StoredBefore(s[..], ops, blocks, rows, nb, acts, nr, bs, xLo, xHi, y, x)
        invariant OthersKept(old(s[..]), s[..], nr, bs, xLo, xHi)
      {
        SlotIn(y, x, 7, nr, bs);
        ghost var before := s[..];
        var out := OutputTile(ops, panels, blocks, rows, nb, acts, nr, y, x);
        StoreTile(s, Slot(y, x, 0, bs), out);
        assert OnlyTile(before, s[..], bs, y, x);
        assert TileStored(s[..], ops, blocks, rows, nb, acts, nr, bs, y, x);
        StoredStep(before, s[..], ops, blocks, rows, nb, acts, nr, bs, xLo, xHi, y, x);
        KeptStep(old(s[..]), before, s[..], nr, bs, xLo, xHi, y, x);
      }
    }
  }
}
