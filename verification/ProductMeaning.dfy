/** What the quantized products compute over the reals: every output is the dot product of
    its weight row, decoded one weight at a time, with its activation row, both addressed in
    their flat buffers. */
module ProductMeaning {
  import opened Arith
  import opened Q4KBlock
  import opened Q4KPanel
  import opened Q4KColumns
  import opened Q4KProduct
  import opened Dequant
  import opened GemmRows
  import opened GemmQuant
  import opened RowMeaning

  function Size(kind: Kind): nat { if kind == Q4K then 144 else 210 }

  /** Block `i` of a weight buffer. */
  predicate HasBlock(kind: Kind, blocks: Bytes, i: int) { 0 <= i && 0 <= i * Size(kind) && i * Size(kind) + Size(kind) <= |blocks| }

  function FlatBlock(kind: Kind, blocks: Bytes, i: int): (block: Bytes)
    requires HasBlock(kind, blocks, i)
    ensures |block| == Size(kind)
  {
    blocks[i * Size(kind)..i * Size(kind) + Size(kind)]
  }

  /** Weight row `j` and activation row `r` lie inside their buffers, `nb` blocks each. */
  ghost predicate RowsIn(kind: Kind, blocks: Bytes, acts: seq<Act<real>>, nb: nat, j: nat, r: nat) {
    && (forall b: nat | b < nb :: HasBlock(kind, blocks, Nth(j, b, nb)))
    && (forall b: nat | b < nb :: Nth(r, b, nb) < |acts| && acts[Nth(r, b, nb)].Valid())
  }

  function Nth(row: nat, b: nat, nb: nat): nat {
    MulSign(row, nb);
    row * nb + b
  }

  /** The dot product of weight row `j` with activation row `r`, over their first `n`
      blocks. */
  ghost function ProductReal(half: (bv8, bv8) -> real, kind: Kind, blocks: Bytes, acts: seq<Act<real>>, nb: nat, j: nat, r: nat, n: nat): real
    requires RowsIn(kind, blocks, acts, nb, j, r) && n <= nb
  {
    if n == 0 then 0.0
    else ProductReal(half, kind, blocks, acts, nb, j, r, n - 1)
         + BlockTerm(half, kind, FlatBlock(kind, blocks, Nth(j, n - 1, nb)), acts[Nth(r, n - 1, nb)])
  }

  lemma {:induction false} RowIsFlat(half: (bv8, bv8) -> real, kind: Kind, row: seq<Bytes>, line: seq<Act<real>>, blocks: Bytes,
                                     acts: seq<Act<real>>, nb: nat, j: nat, r: nat, n: nat)
    requires Paired(kind, row, line) && RowsIn(kind, blocks, acts, nb, j, r) && n <= nb == |row|
    requires forall b: nat | b < nb :: row[b] == FlatBlock(kind, blocks, Nth(j, b, nb)) && line[b] == acts[Nth(r, b, nb)]
    ensures RowReal(half, kind, row, line, n) == ProductReal(half, kind, blocks, acts, nb, j, r, n)
  {
    if n > 0 { RowIsFlat(half, kind, row, line, blocks, acts, nb, j, r, n - 1); }
  }

  lemma LineAt(acts: seq<Act<real>>, nb: nat, r: nat, b: nat)
    requires RowFits(|acts|, nb, r) && b < nb
    ensures Nth(r, b, nb) < |acts| && ActRow(acts, nb, r)[b] == acts[Nth(r, b, nb)]
  {
    MulSign(r, nb);
  }

  /** Where block `b` of row `j` starts. */
  lemma Offset(j: nat, b: nat, nb: nat, size: nat)
    ensures j * (nb * size) + b * size == Nth(j, b, nb) * size
    ensures b < nb ==> 0 <= b * size && b * size + size <= nb * size
  {
    assert (j * nb + b) * size == j * nb * size + b * size;
    MulSign(b, size);
    MulMono(b + 1, nb, size);
    assert (b + 1) * size == b * size + size;
  }

  lemma WeightAt(c: Gemm<real>, j: nat, b: nat)
    requires c.RowInside(j) && b < c.nb
    ensures HasBlock(c.kind, c.blocks, Nth(j, b, c.nb)) && c.WeightRow(j)[b] == FlatBlock(c.kind, c.blocks, Nth(j, b, c.nb))
  {
    var size := Size(c.kind);
    Offset(j, b, c.nb, size);
    MulSign(j, c.RowBytes());
    MulSign(Nth(j, b, c.nb), size);
    SliceOfSlice(c.blocks, j * c.RowBytes(), c.RowBytes(), b * size, size);
  }

  lemma SliceOfSlice(s: Bytes, at: nat, n: nat, from: nat, m: nat)
    requires at + n <= |s| && from + m <= n
    ensures s[at..at + n][from..from + m] == s[at + from..at + from + m]
  {
    var t := s[at..at + n];
    var u, v := t[from..from + m], s[at + from..at + from + m];
    forall i | 0 <= i < m ensures u[i] == v[i] {
      assert t[from + i] == s[at + from + i];
    }
  }

  /** Main result: whatever the schedule, a cell of the quantized product ends, over the
      reals, as its old value if the call accumulates, plus its dot product, plus its
      bias. */
  lemma ProductMeans(ops: Ops<real>, c: Gemm<real>, s: seq<real>, was: seq<real>, r: nat, j: nat, o: nat)
    requires OverReals(ops) && c.Valid() && r < c.m && j < c.n && |s| == |was| && o == r * c.n + j
    requires GemmQuant.Output(s, was, ops, c, GemmQuant.Dots(ops, c), true, r, j)
    ensures RowsIn(c.kind, c.blocks, c.acts, c.nb, j, r) && o < |s|
    ensures s[o] == (if c.accumulate then was[o] else 0.0)
                    + ProductReal(ops.half, c.kind, c.blocks, c.acts, c.nb, j, r, c.nb)
                    + (if c.bias.Bias? then c.bias.b[j] else 0.0)
  {
    DotMeans(ops, c, r, j);
    CellHolds(ops, c, s, was, r, j, o);
    StoredMeans(ops, c, j, was[o], Dot(ops, c, r, j));
  }

  lemma CellHolds(ops: Ops<real>, c: Gemm<real>, s: seq<real>, was: seq<real>, r: nat, j: nat, o: nat)
    requires c.Valid() && r < c.m && j < c.n && |s| == |was| && o == r * c.n + j
    requires GemmQuant.Output(s, was, ops, c, GemmQuant.Dots(ops, c), true, r, j)
    ensures o < |s| && s[o] == Stored(ops, c, j, was[o], Dot(ops, c, r, j))
  {
    assert GemmQuant.Dots(ops, c)[r][j] == Dot(ops, c, r, j);
  }

  lemma StoredMeans(ops: Ops<real>, c: Gemm<real>, j: nat, was: real, dot: real)
    requires OverReals(ops) && (c.bias.Bias? ==> j < |c.bias.b|)
    ensures Stored(ops, c, j, was, dot) == (if c.accumulate then was else 0.0) + dot + (if c.bias.Bias? then c.bias.b[j] else 0.0)
  {
  }

  /** Each dot product, by whichever kernel. */
  lemma DotMeans(ops: Ops<real>, c: Gemm<real>, r: nat, j: nat)
    requires OverReals(ops) && c.Valid() && r < c.m && j < c.n
    ensures RowsIn(c.kind, c.blocks, c.acts, c.nb, j, r)
    ensures Dot(ops, c, r, j) == ProductReal(ops.half, c.kind, c.blocks, c.acts, c.nb, j, r, c.nb)
  {
    RowIsPaired(c, r, j);
    RowLies(c, r, j);
    var row, line := c.WeightRow(j), ActRow(c.acts, c.nb, r);
    RowIsFlat(ops.half, c.kind, row, line, c.blocks, c.acts, c.nb, j, r, c.nb);
    RowMeans(ops, c.kind, row, line);
    TileMeans(ops, c.kind, row, line);
  }

  lemma RowLies(c: Gemm<real>, r: nat, j: nat)
    requires c.Valid() && r < c.m && j < c.n
    ensures RowFits(|c.acts|, c.nb, r) && c.RowInside(j) && RowsIn(c.kind, c.blocks, c.acts, c.nb, j, r)
    ensures var row, line := c.WeightRow(j), ActRow(c.acts, c.nb, r);
            forall b: nat | b < c.nb ::
              row[b] == FlatBlock(c.kind, c.blocks, Nth(j, b, c.nb)) && line[b] == c.acts[Nth(r, b, c.nb)]
  {
    assert RowFits(|c.acts|, c.nb, r) && c.RowInside(j);
    var row, line := c.WeightRow(j), ActRow(c.acts, c.nb, r);
    forall b: nat | b < c.nb
      ensures HasBlock(c.kind, c.blocks, Nth(j, b, c.nb)) && Nth(r, b, c.nb) < |c.acts|
      ensures row[b] == FlatBlock(c.kind, c.blocks, Nth(j, b, c.nb)) && line[b] == c.acts[Nth(r, b, c.nb)]
    {
      WeightAt(c, j, b);
      LineAt(c.acts, c.nb, r, b);
    }
  }

  // ----- the panel product -----

  lemma BlockTermIs(half: (bv8, bv8) -> real, block: Bytes, act: Act<real>)
    requires IsBlock(block) && act.Valid()
    ensures BlockTerm(half, Q4K, block, act)
         == Product2(act.d, Times(half(block[0], block[1]), BlockDot(block, act.qs, 8))
                            - Times(half(block[2], block[3]), BlockMin(block, act.bsums, 8)))
  {
    BlockIsDecoded(block, half(block[0], block[1]), half(block[2], block[3]), act, 8);
  }

  lemma ColumnTerm(a: real, d: real, dmin: real, x: int, y: int)
    ensures Product2(x as real, Product2(d, a)) - Product2(y as real, Product2(dmin, a)) == Product2(a, Times(d, x) - Times(dmin, y))
  {
    TwoScales(a, d, dmin, x, y);
    var u, v := x as real, y as real;
    assert u * (d * a) == (a * d) * u;
    assert v * (dmin * a) == -((-a * dmin) * v);
  }

  lemma ColumnStep(ops: Ops<real>, tiles: seq<seq<Bytes>>, acts: seq<Act<real>>, c: nat, b: nat)
    requires OverReals(ops) && Tiles(tiles, acts) && c < 8 && b < |tiles|
    ensures ColumnTotal(ops, tiles, acts, c, b + 1) == ColumnTotal(ops, tiles, acts, c, b) + BlockTerm(ops.half, Q4K, tiles[b][c], acts[b])
  {
    var block, act := tiles[b][c], acts[b];
    var d, dmin, x, y := ops.half(block[0], block[1]), ops.half(block[2], block[3]), BlockDot(block, act.qs, 8), BlockMin(block, act.bsums, 8);
    BlockTermIs(ops.half, block, act);
    ColumnTerm(act.d, d, dmin, x, y);
    FmaIs(ops, x, d, act.d, MainAcc(ops, tiles, acts, c, b));
    FmaIs(ops, y, dmin, act.d, MinAcc(ops, tiles, acts, c, b));
  }

  lemma FmaIs(ops: Ops<real>, x: int, d: real, a: real, acc: real)
    requires OverReals(ops)
    ensures ops.fma(ops.ofInt(x), ops.mul(d, a), acc) == Product2(x as real, Product2(d, a)) + acc
  {
  }

  ghost function ColumnTotal(ops: Ops<real>, tiles: seq<seq<Bytes>>, acts: seq<Act<real>>, c: nat, n: nat): real
    requires Tiles(tiles, acts) && c < 8 && n <= |tiles|
  {
    MainAcc(ops, tiles, acts, c, n) - MinAcc(ops, tiles, acts, c, n)
  }

  lemma NoColumnYet(ops: Ops<real>, tiles: seq<seq<Bytes>>, acts: seq<Act<real>>, c: nat)
    requires OverReals(ops) && Tiles(tiles, acts) && c < 8
    ensures ColumnTotal(ops, tiles, acts, c, 0) == 0.0
  {
  }

  lemma ColumnNext(ops: Ops<real>, tiles: seq<seq<Bytes>>, acts: seq<Act<real>>, c: nat, block: Bytes, act: Act<real>, b: nat)
    requires OverReals(ops) && Tiles(tiles, acts) && c < 8 && b < |tiles| && block == tiles[b][c] && act == acts[b]
    ensures |block| == BlockSize(Q4K) && act.Valid()
    ensures ColumnTotal(ops, tiles, acts, c, b + 1) - ColumnTotal(ops, tiles, acts, c, b) == BlockTerm(ops.half, Q4K, block, act)
  {
    ColumnStep(ops, tiles, acts, c, b);
  }

  lemma RowNext(half: (bv8, bv8) -> real, blocks: seq<Bytes>, acts: seq<Act<real>>, b: nat)
    requires Paired(Q4K, blocks, acts) && b < |blocks|
    ensures RowReal(half, Q4K, blocks, acts, b + 1) - RowReal(half, Q4K, blocks, acts, b) == BlockTerm(half, Q4K, blocks[b], acts[b])
  {
  }

  /** One column of a row of panels. */
  lemma {:induction false} AccMean(ops: Ops<real>, tiles: seq<seq<Bytes>>, acts: seq<Act<real>>, c: nat, column: seq<Bytes>, n: nat)
    requires OverReals(ops) && Tiles(tiles, acts) && c < 8 && n <= |tiles| == |column|
    requires (forall b | 0 <= b < |tiles| :: column[b] == tiles[b][c]) && Paired(Q4K, column, acts)
    ensures ColumnTotal(ops, tiles, acts, c, n) == RowReal(ops.half, Q4K, column, acts, n)
  {
    if n == 0 {
      NoColumnYet(ops, tiles, acts, c);
    } else {
      var b, block, act := n - 1, column[n - 1], acts[n - 1];
      AccMean(ops, tiles, acts, c, column, b);
      ColumnNext(ops, tiles, acts, c, block, act, b);
      RowNext(ops.half, column, acts, b);
    }
  }

  lemma ColumnMeans(ops: Ops<real>, tiles: seq<seq<Bytes>>, acts: seq<Act<real>>, c: nat, column: seq<Bytes>)
    requires OverReals(ops) && Tiles(tiles, acts) && c < 8 && |tiles| == |column|
    requires (forall b | 0 <= b < |tiles| :: column[b] == tiles[b][c]) && Paired(Q4K, column, acts)
    ensures ColumnValue(ops, tiles, acts, c) == RowReal(ops.half, Q4K, column, acts, |column|)
  {
    AccMean(ops, tiles, acts, c, column, |tiles|);
  }

  lemma PanelBlockAt(blocks: Bytes, nb: nat, row: nat, b: nat)
    requires BlockIn(blocks, nb, row, b) && b < nb
    ensures HasBlock(Q4K, blocks, Nth(row, b, nb)) && BlockAt(blocks, nb, row, b) == FlatBlock(Q4K, blocks, Nth(row, b, nb))
  {
    Offset(row, b, nb, 144);
    MulSign(Nth(row, b, nb), 144);
  }

  /** The blocks of a panel's column and their activations. */
  lemma ColumnLies(blocks: Bytes, rows: nat, nb: nat, acts: seq<Act<real>>, nr: nat, y: nat, x: nat, c: nat) returns (column: seq<Bytes>)
    requires Matrix(blocks, rows, nb) && ActsFit(acts, nr, nb) && y < nr && x < rows / 8 && c < 8
    ensures RowFits(|acts|, nb, y) && RowsIn(Q4K, blocks, acts, nb, x * 8 + c, y)
    ensures var tiles, line := TilesOf(blocks, rows, nb, x), ActRow(acts, nb, y);
            && Paired(Q4K, column, line) && |column| == nb && Tiles(tiles, line)
            && (forall b: nat | b < nb :: column[b] == FlatBlock(Q4K, blocks, Nth(x * 8 + c, b, nb)) && line[b] == acts[Nth(y, b, nb)])
            && forall b: nat | b < nb :: column[b] == tiles[b][c]
  {
    assert RowFits(|acts|, nb, y);
    var tiles, line, row := TilesOf(blocks, rows, nb, x), ActRow(acts, nb, y), x * 8 + c;
    column := seq(nb, (b: nat) requires b < nb && BlockIn(blocks, nb, row, b) => BlockAt(blocks, nb, row, b));
    forall b: nat | b < nb
      ensures HasBlock(Q4K, blocks, Nth(row, b, nb)) && Nth(y, b, nb) < |acts|
      ensures column[b] == FlatBlock(Q4K, blocks, Nth(row, b, nb)) == tiles[b][c] && line[b] == acts[Nth(y, b, nb)]
    {
      assert BlockIn(blocks, nb, row, b);
      PanelBlockAt(blocks, nb, row, b);
      LineAt(acts, nb, y, b);
    }
  }

  /** Main result: over the reals the panel product stores, for activation row `y` and
      weight row `x * 8 + c`, the same dot product of the original blocks. */
  lemma GemvMeans(ops: Ops<real>, s: seq<real>, blocks: Bytes, rows: nat, nb: nat, acts: seq<Act<real>>, nr: nat, bs: nat,
                  y: nat, x: nat, c: nat)
    requires OverReals(ops) && Matrix(blocks, rows, nb) && ActsFit(acts, nr, nb) && y < nr && x < rows / 8 && c < 8
    requires TileStored(s, ops, blocks, rows, nb, acts, nr, bs, y, x)
    ensures RowsIn(Q4K, blocks, acts, nb, x * 8 + c, y)
    ensures var o := y * bs + (x * 8 + c);
            0 <= o < |s| && s[o] == ProductReal(ops.half, Q4K, blocks, acts, nb, x * 8 + c, y, nb)
  {
    var column := ColumnLies(blocks, rows, nb, acts, nr, y, x, c);
    SlotHolds(ops, s, blocks, rows, nb, acts, nr, bs, y, x, c);
    RowIsFlat(ops.half, Q4K, column, ActRow(acts, nb, y), blocks, acts, nb, x * 8 + c, y, nb);
    ColumnMeans(ops, TilesOf(blocks, rows, nb, x), ActRow(acts, nb, y), c, column);
  }

  lemma SlotHolds(ops: Ops<real>, s: seq<real>, blocks: Bytes, rows: nat, nb: nat, acts: seq<Act<real>>, nr: nat, bs: nat,
                  y: nat, x: nat, c: nat)
    requires Matrix(blocks, rows, nb) && ActsFit(acts, nr, nb) && y < nr && x < rows / 8 && c < 8 && RowFits(|acts|, nb, y)
    requires TileStored(s, ops, blocks, rows, nb, acts, nr, bs, y, x)
    ensures var o := y * bs + (x * 8 + c); 0 <= o < |s| && s[o] == ColumnValue(ops, TilesOf(blocks, rows, nb, x), ActRow(acts, nb, y), c)
  {
    MulSign(y, bs);
    assert Slot(y, x, c, bs) < |s|;
  }
}
