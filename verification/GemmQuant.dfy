/** The grouped schedule of the quantized matrix product: which index computes which
    outputs, and that any order of the indices gives every output its one value. */
module GemmQuant {
  import opened Arith
  import opened Q4KBlock
  import opened Q4KProduct
  import opened GemmRows

  // ----- the index space -----

  /** Rows in full groups of `rpw`; the rest are done one at a time. */
  function Grouped(m: nat, rpw: nat): (r: nat)
    requires rpw > 0
    ensures r <= m && m < r + rpw
  {
    DivMod(m, rpw);
    m / rpw * rpw
  }

  /** The number of indices: one per group and column, then one per tail row and
      column. */
  function Units(m: nat, n: nat, rpw: nat): (u: nat)
    requires rpw > 0
  {
    MulSign(m / rpw, n);
    MulSign(m - Grouped(m, rpw), n);
    m / rpw * n + (m - Grouped(m, rpw)) * n
  }

  /** Index `u` writes output `(r, j)`. */
  predicate Writes(m: nat, n: nat, rpw: nat, u: nat, r: nat, j: nat)
    requires rpw > 0 && n > 0
  {
    var g := u / n;
    && j == u - g * n
    && if g < m / rpw then g * rpw <= r < g * rpw + rpw else r == Grouped(m, rpw) + (g - m / rpw)
  }

  /** The one index that does. */
  function Owner(m: nat, n: nat, rpw: nat, r: nat, j: nat): (u: nat)
    requires rpw > 0
  {
    MulSign(OwnerRow(m, rpw, r), n);
    OwnerRow(m, rpw, r) * n + j
  }

  function OwnerRow(m: nat, rpw: nat, r: nat): (g: nat)
    requires rpw > 0
  {
    if r < Grouped(m, rpw) then r / rpw else m / rpw + (r - Grouped(m, rpw))
  }

  lemma OwnerRowIs(m: nat, rpw: nat, r: nat, g: nat)
    requires rpw > 0
    ensures g < m / rpw ==> (OwnerRow(m, rpw, r) == g <==> g * rpw <= r < g * rpw + rpw)
    ensures g >= m / rpw ==> (OwnerRow(m, rpw, r) == g <==> r == Grouped(m, rpw) + (g - m / rpw))
    ensures g < m / rpw ==> g * rpw + rpw <= Grouped(m, rpw)
    ensures r < m ==> OwnerRow(m, rpw, r) < m / rpw + (m - Grouped(m, rpw))
  {
    DivIff(r, rpw, g);
    DivIff(r, rpw, m / rpw - 1);
    assert (m / rpw - 1) * rpw + rpw == m / rpw * rpw;
    MulMono(g, m / rpw, rpw);
  }

  /** Every output is written by exactly one index, for any `m`, `n` and group size. */
  lemma WrittenOnce(m: nat, n: nat, rpw: nat, r: nat, j: nat)
    requires rpw > 0 && r < m && j < n
    ensures Owner(m, n, rpw, r, j) < Units(m, n, rpw)
    ensures forall u: nat | u < Units(m, n, rpw) :: Writes(m, n, rpw, u, r, j) <==> u == Owner(m, n, rpw, r, j)
  {
    OwnerRowIs(m, rpw, r, 0);
    var g0 := OwnerRow(m, rpw, r);
    FlatIn(g0, j, m / rpw + (m - Grouped(m, rpw)), n);
    assert (m / rpw + (m - Grouped(m, rpw))) * n == Units(m, n, rpw);
    forall u: nat | u < Units(m, n, rpw) ensures Writes(m, n, rpw, u, r, j) <==> u == Owner(m, n, rpw, r, j) {
      OneIndex(m, n, rpw, u, r, j);
    }
  }

  lemma OneIndex(m: nat, n: nat, rpw: nat, u: nat, r: nat, j: nat)
    requires rpw > 0 && j < n
    ensures Writes(m, n, rpw, u, r, j) <==> u == Owner(m, n, rpw, r, j)
  {
    DivMod(u, n);
    OwnerRowIs(m, rpw, r, u / n);
    Flat(OwnerRow(m, rpw, r), j, n);
  }

  /** An index stays inside the matrix. */
  lemma IndexInside(m: nat, n: nat, rpw: nat, u: nat)
    requires rpw > 0 && n > 0 && u < Units(m, n, rpw)
    ensures var g := u / n;
            0 <= u - g * n < n && g < m / rpw + (m - Grouped(m, rpw))
            && (g < m / rpw ==> g * rpw + rpw <= Grouped(m, rpw))
  {
    assert (m / rpw + (m - Grouped(m, rpw))) * n == Units(m, n, rpw);
    FlatUnit(u, m / rpw + (m - Grouped(m, rpw)), n, 1);
    OwnerRowIs(m, rpw, 0, u / n);
  }

  // ----- the call -----

  datatype Bias<F> = NoBias | Bias(b: seq<F>)

  datatype Gemm<F> = Gemm(kind: Kind, blocks: Bytes, acts: seq<Act<F>>, nb: nat, m: nat, n: nat, rpw: nat, bias: Bias<F>,
                          accumulate: bool)
  {
    function RowBytes(): nat { if kind == Q4K then nb * 144 else nb * 210 }

    /** Weight row `j` lies inside the blocks. */
    predicate RowInside(j: nat) { j * RowBytes() + RowBytes() <= |blocks| }

    ghost predicate Valid() {
      && rpw > 0
      && (forall j: nat | j < n :: RowInside(j))
      && (forall r: nat | r < m :: RowFits(|acts|, nb, r))
      && (forall i | 0 <= i < |acts| :: acts[i].Valid())
      && (bias.Bias? ==> |bias.b| == n)
    }

    /** The blocks of weight row `j`. */
    function WeightRow(j: nat): (row: seq<Bytes>)
      requires RowInside(j)
      ensures |row| == nb && forall b | 0 <= b < nb :: |row[b]| == BlockSize(kind)
    {
      MulSign(j, RowBytes());
      var bytes := blocks[j * RowBytes()..j * RowBytes() + RowBytes()];
      seq(nb, (b: nat) requires b < nb && |bytes| == RowBytes() =>
        if kind == Q4K then bytes[b * 144..b * 144 + 144] else bytes[b * 210..b * 210 + 210])
    }
  }

  /** The dot product of output `(r, j)`, by the kernel its row gets. */
  ghost function Dot<F>(ops: Ops<F>, c: Gemm<F>, r: nat, j: nat): F
    requires c.Valid() && r < c.m && j < c.n
  {
    assert c.RowInside(j) && RowFits(|c.acts|, c.nb, r);
    var blocks, acts := c.WeightRow(j), ActRow(c.acts, c.nb, r);
    if r < Grouped(c.m, c.rpw) then TileValue(ops, c.kind, blocks, acts) else RowValue(ops, c.kind, blocks, acts)
  }

  /** What an output becomes: bias added if there is one, then to the old value if the
      call accumulates. */
  function Stored<F>(ops: Ops<F>, c: Gemm<F>, j: nat, was: F, dot: F): F
    requires c.bias.Bias? ==> j < |c.bias.b|
  {
    var value := if c.bias.Bias? then ops.add(dot, c.bias.b[j]) else dot;
    if c.accumulate then ops.add(was, value) else value
  }

  function Cell(r: nat, j: nat, n: nat): nat { r * n + j }

  lemma CellsApart(r: nat, j: nat, r': nat, j': nat, n: nat)
    requires j < n && j' < n
    ensures Cell(r, j, n) == Cell(r', j', n) <==> r == r' && j == j'
  {
    Flat(r, j, n);
    Flat(r', j', n);
  }

  lemma CellIn(r: nat, j: nat, m: nat, n: nat)
    requires r < m && j < n
    ensures Cell(r, j, n) < m * n
  {
    FlatIn(r, j, m, n);
  }

  /** The outputs chosen by `done` hold their new values, the others their old. */
  ghost predicate State<F>(s: seq<F>, was: seq<F>, ops: Ops<F>, c: Gemm<F>, dots: seq<seq<F>>, done: (nat, nat) -> bool)
    requires c.Valid() && Grid(dots, c.m, c.n)
  {
    |s| == |was| && forall r: nat, j: nat | r < c.m && j < c.n :: Output(s, was, ops, c, dots, done(r, j), r, j)
  }

  ghost predicate Output<F>(s: seq<F>, was: seq<F>, ops: Ops<F>, c: Gemm<F>, dots: seq<seq<F>>, done: bool, r: nat, j: nat)
    requires c.Valid() && Grid(dots, c.m, c.n) && r < c.m && j < c.n && |s| == |was|
  {
    && Cell(r, j, c.n) < |s|
    && s[Cell(r, j, c.n)] == if done then Stored(ops, c, j, was[Cell(r, j, c.n)], dots[r][j]) else was[Cell(r, j, c.n)]
  }

  ghost predicate Grid<F>(dots: seq<seq<F>>, m: nat, n: nat) {
    |dots| == m && forall r | 0 <= r < m :: |dots[r]| == n
  }

  ghost function Dots<F>(ops: Ops<F>, c: Gemm<F>): (d: seq<seq<F>>)
    requires c.Valid()
    ensures Grid(d, c.m, c.n)
  {
    seq(c.m, (r: nat) requires r < c.m => seq(c.n, (j: nat) requires j < c.n => Dot(ops, c, r, j)))
  }

  /** One output stored. */
  method StoreOutput<F(!new)>(ops: Ops<F>, c: Gemm<F>, ghost dots: seq<seq<F>>, ghost was: seq<F>, ghost done: (nat, nat) -> bool,
                        ghost done': (nat, nat) -> bool, out: array<F>, r: nat, j: nat, total: F)
    requires c.Valid() && Grid(dots, c.m, c.n) && r < c.m && j < c.n && out.Length == c.m * c.n
    requires State(out[..], was, ops, c, dots, done) && !done(r, j) && total == dots[r][j]
    requires forall r': nat, j': nat | r' < c.m && j' < c.n :: done'(r', j') <==> done(r', j') || (r' == r && j' == j)
    modifies out
    ensures State(out[..], was, ops, c, dots, done')
  {
    ghost var s := out[..];
    CellIn(r, j, c.m, c.n);
    assert Output(s, was, ops, c, dots, false, r, j);
    var o := r * c.n + j;
    var value := if c.bias.Bias? then ops.add(total, c.bias.b[j]) else total;
    out[o] := if c.accumulate then ops.add(out[o], value) else value;
    forall r': nat, j': nat | r' < c.m && j' < c.n ensures Output(out[..], was, ops, c, dots, done'(r', j'), r', j') {
      CellsApart(r, j, r', j', c.n);
      assert Output(s, was, ops, c, dots, done(r', j'), r', j');
    }
  }

  // ----- one index -----

  /** The activation rows of a group. */
  function GroupRows<F>(c: Gemm<F>, r: nat): (rows: seq<seq<Act<F>>>)
    requires c.Valid() && r + c.rpw <= c.m
    ensures |rows| == c.rpw
  {
    seq(c.rpw, (i: nat) requires i < c.rpw && c.Valid() && r + c.rpw <= c.m => ActRow(c.acts, c.nb, r + i))
  }

  lemma RowIsPaired<F>(c: Gemm<F>, r: nat, j: nat)
    requires c.Valid() && r < c.m && j < c.n
    ensures RowFits(|c.acts|, c.nb, r) && c.RowInside(j) && Paired(c.kind, c.WeightRow(j), ActRow(c.acts, c.nb, r))
  {
    assert RowFits(|c.acts|, c.nb, r) && c.RowInside(j);
    var acts := ActRow(c.acts, c.nb, r);
    forall b | 0 <= b < |acts| ensures acts[b].Valid() {
      MulSign(r, c.nb);
      assert acts[b] == c.acts[r * c.nb + b];
    }
  }

  lemma DotAt<F>(ops: Ops<F>, c: Gemm<F>, r: nat, j: nat)
    requires c.Valid() && r < c.m && j < c.n
    ensures Dots(ops, c)[r][j] == Dot(ops, c, r, j)
  {
  }

  lemma GroupRowAt<F>(c: Gemm<F>, r: nat, k: nat)
    requires c.Valid() && r <= k < r + c.rpw <= c.m
    ensures RowFits(|c.acts|, c.nb, k) && GroupRows(c, r)[k - r] == ActRow(c.acts, c.nb, k)
  {
    assert r + (k - r) == k;
  }

  lemma GroupPaired<F>(c: Gemm<F>, r: nat, j: nat)
    requires c.Valid() && r + c.rpw <= c.m && j < c.n
    ensures c.RowInside(j) && AllPaired(c.kind, c.WeightRow(j), GroupRows(c, r))
  {
    assert c.RowInside(j);
    forall i | 0 <= i < c.rpw ensures Paired(c.kind, c.WeightRow(j), GroupRows(c, r)[i]) {
      GroupRowAt(c, r, r + i);
      RowIsPaired(c, r + i, j);
    }
  }

  /** A row inside the groups gets the several-row kernel's value. */
  lemma GroupedDot<F>(ops: Ops<F>, c: Gemm<F>, dots: seq<seq<F>>, r: nat, j: nat, x: F)
    requires c.Valid() && r < Grouped(c.m, c.rpw) && j < c.n && dots == Dots(ops, c)
    requires RowFits(|c.acts|, c.nb, r) && c.RowInside(j) && Paired(c.kind, c.WeightRow(j), ActRow(c.acts, c.nb, r))
    requires x == TileValue(ops, c.kind, c.WeightRow(j), ActRow(c.acts, c.nb, r))
    ensures x == dots[r][j]
  {
    DotAt(ops, c, r, j);
  }

  /** A group's dot products in one call. */
  method GroupTotals<F>(ops: Ops<F>, c: Gemm<F>, ghost dots: seq<seq<F>>, r: nat, j: nat) returns (totals: seq<F>)
    requires c.Valid() && r + c.rpw <= Grouped(c.m, c.rpw) && j < c.n && dots == Dots(ops, c)
    ensures |totals| == c.rpw && forall k: nat | r <= k < r + c.rpw :: totals[k - r] == dots[k][j]
  {
    GroupPaired(c, r, j);
    var rows, blocks := GroupRows(c, r), c.WeightRow(j);
    totals := DotRows(ops, c.kind, blocks, rows);
    forall k: nat | r <= k < r + c.rpw ensures totals[k - r] == dots[k][j] {
      GroupRowAt(c, r, k);
      RowIsPaired(c, k, j);
      GroupedDot(ops, c, dots, k, j, totals[k - r]);
    }
  }

  /** The outputs index `u` writes, as a set of cells. */
  ghost function Chosen(m: nat, n: nat, rpw: nat, u: nat): (nat, nat) -> bool
    requires rpw > 0 && n > 0
  {
    (r: nat, j: nat) => Owner(m, n, rpw, r, j) == u
  }

  /** The rows of a group below `i`, on top of what was there. */
  ghost function Partly(done: (nat, nat) -> bool, r: nat, j: nat, i: nat): (nat, nat) -> bool {
    (r': nat, j': nat) => done(r', j') || (j' == j && r <= r' < r + i)
  }

  /** What index `u` adds to the cells already done. */
  ghost function With(done: (nat, nat) -> bool, c: (nat, nat) -> bool): (nat, nat) -> bool {
    (r: nat, j: nat) => done(r, j) || c(r, j)
  }

  /** A group of `rpw` rows: one weight walk, then each output stored. */
  method GroupIndex<F(!new)>(ops: Ops<F>, c: Gemm<F>, ghost dots: seq<seq<F>>, ghost was: seq<F>, ghost done: (nat, nat) -> bool,
                             out: array<F>, r: nat, j: nat)
    requires c.Valid() && dots == Dots(ops, c) && out.Length == c.m * c.n && j < c.n && r + c.rpw <= Grouped(c.m, c.rpw)
    requires State(out[..], was, ops, c, dots, done)
    requires forall k: nat | r <= k < r + c.rpw :: !done(k, j)
    modifies out
    ensures State(out[..], was, ops, c, dots, Partly(done, r, j, c.rpw))
  {
    var totals := GroupTotals(ops, c, dots, r, j);
    StoreGroup(ops, c, dots, was, done, out, r, j, totals);
  }

  method StoreGroup<F(!new)>(ops: Ops<F>, c: Gemm<F>, ghost dots: seq<seq<F>>, ghost was: seq<F>, ghost done: (nat, nat) -> bool,
                             out: array<F>, r: nat, j: nat, totals: seq<F>)
    requires c.Valid() && Grid(dots, c.m, c.n) && out.Length == c.m * c.n && j < c.n && r + c.rpw <= c.m
    requires State(out[..], was, ops, c, dots, done) && |totals| == c.rpw
    requires forall k: nat | r <= k < r + c.rpw :: !done(k, j) && totals[k - r] == dots[k][j]
    modifies out
    ensures State(out[..], was, ops, c, dots, Partly(done, r, j, c.rpw))
  {
    for i := 0 to c.rpw
      invariant State(out[..], was, ops, c, dots, Partly(done, r, j, i))
    {
      var k: nat := r + i;
      assert !done(k, j) && totals[k - r] == dots[k][j];
      StoreOutput(ops, c, dots, was, Partly(done, r, j, i), Partly(done, r, j, i + 1), out, k, j, totals[i]);
    }
  }

  /** A tail row: the one-row kernel. */
  method TailIndex<F(!new)>(ops: Ops<F>, c: Gemm<F>, ghost dots: seq<seq<F>>, ghost was: seq<F>, ghost done: (nat, nat) -> bool,
                            out: array<F>, r: nat, j: nat)
    requires c.Valid() && dots == Dots(ops, c) && out.Length == c.m * c.n && j < c.n && Grouped(c.m, c.rpw) <= r < c.m
    requires State(out[..], was, ops, c, dots, done) && !done(r, j)
    modifies out
    ensures State(out[..], was, ops, c, dots, Partly(done, r, j, 1))
  {
    RowIsPaired(c, r, j);
    var total := DotRow(ops, c.kind, c.WeightRow(j), ActRow(c.acts, c.nb, r));
    DotAt(ops, c, r, j);
    StoreOutput(ops, c, dots, was, done, Partly(done, r, j, 1), out, r, j, total);
  }

  /** The same cells, described another way. */
  lemma SameCells<F>(s: seq<F>, was: seq<F>, ops: Ops<F>, c: Gemm<F>, dots: seq<seq<F>>, done: (nat, nat) -> bool, done': (nat, nat) -> bool)
    requires c.Valid() && Grid(dots, c.m, c.n) && State(s, was, ops, c, dots, done)
    requires forall r: nat, j: nat | r < c.m && j < c.n :: done(r, j) <==> done'(r, j)
    ensures State(s, was, ops, c, dots, done')
  {
    forall r: nat, j: nat | r < c.m && j < c.n ensures Output(s, was, ops, c, dots, done'(r, j), r, j) {
      assert Output(s, was, ops, c, dots, done(r, j), r, j);
    }
  }

  /** The cells of a group's index. */
  lemma GroupCells(m: nat, n: nat, rpw: nat, done: (nat, nat) -> bool, index: nat, r: nat, j: nat)
    requires rpw > 0 && n > 0 && index / n < m / rpw && r == index / n * rpw && j == index - index / n * n < n
    ensures forall r': nat, j': nat | r' < m && j' < n ::
              Partly(done, r, j, rpw)(r', j') <==> With(done, Chosen(m, n, rpw, index))(r', j')
    ensures forall k: nat | r <= k < r + rpw :: Owner(m, n, rpw, k, j) == index
    ensures r + rpw <= Grouped(m, rpw)
  {
    OwnerRowIs(m, rpw, 0, index / n);
    forall r': nat, j': nat | j' < n ensures Owner(m, n, rpw, r', j') == index <==> j' == j && r <= r' < r + rpw {
      OneIndex(m, n, rpw, index, r', j');
    }
  }

  lemma TailCells(m: nat, n: nat, rpw: nat, done: (nat, nat) -> bool, index: nat, r: nat, j: nat)
    requires rpw > 0 && n > 0 && index / n >= m / rpw && r == Grouped(m, rpw) + (index / n - m / rpw) && j == index - index / n * n < n
    ensures forall r': nat, j': nat | r' < m && j' < n ::
              Partly(done, r, j, 1)(r', j') <==> With(done, Chosen(m, n, rpw, index))(r', j')
    ensures Owner(m, n, rpw, r, j) == index
  {
    forall r': nat, j': nat | j' < n ensures Owner(m, n, rpw, r', j') == index <==> j' == j && r' == r {
      OneIndex(m, n, rpw, index, r', j');
    }
  }

  /** An index of the grouped part. */
  method GroupUnit<F(!new)>(ops: Ops<F>, c: Gemm<F>, ghost dots: seq<seq<F>>, ghost was: seq<F>, ghost done: (nat, nat) -> bool,
                            out: array<F>, ghost index: nat, r: nat, j: nat)
    requires c.Valid() && dots == Dots(ops, c) && c.n > 0 && out.Length == c.m * c.n && State(out[..], was, ops, c, dots, done)
    requires index / c.n < c.m / c.rpw && r == index / c.n * c.rpw && j == index - index / c.n * c.n < c.n
    requires forall r: nat, j: nat | r < c.m && j < c.n && Owner(c.m, c.n, c.rpw, r, j) == index :: !done(r, j)
    modifies out
    ensures State(out[..], was, ops, c, dots, With(done, Chosen(c.m, c.n, c.rpw, index)))
  {
    GroupCells(c.m, c.n, c.rpw, done, index, r, j);
    GroupIndex(ops, c, dots, was, done, out, r, j);
    SameCells(out[..], was, ops, c, dots, Partly(done, r, j, c.rpw), With(done, Chosen(c.m, c.n, c.rpw, index)));
  }

  /** An index of the tail. */
  method TailUnit<F(!new)>(ops: Ops<F>, c: Gemm<F>, ghost dots: seq<seq<F>>, ghost was: seq<F>, ghost done: (nat, nat) -> bool,
                           out: array<F>, ghost index: nat, r: nat, j: nat)
    requires c.Valid() && dots == Dots(ops, c) && c.n > 0 && out.Length == c.m * c.n && State(out[..], was, ops, c, dots, done)
    requires index / c.n >= c.m / c.rpw && j == index - index / c.n * c.n < c.n
    requires r == Grouped(c.m, c.rpw) + (index / c.n - c.m / c.rpw) < c.m
    requires forall r: nat, j: nat | r < c.m && j < c.n && Owner(c.m, c.n, c.rpw, r, j) == index :: !done(r, j)
    modifies out
    ensures State(out[..], was, ops, c, dots, With(done, Chosen(c.m, c.n, c.rpw, index)))
  {
    TailCells(c.m, c.n, c.rpw, done, index, r, j);
    TailIndex(ops, c, dots, was, done, out, r, j);
    SameCells(out[..], was, ops, c, dots, Partly(done, r, j, 1), With(done, Chosen(c.m, c.n, c.rpw, index)));
  }

  /** One index of the parallel loop. */
  method RunIndex<F(!new)>(ops: Ops<F>, c: Gemm<F>, ghost dots: seq<seq<F>>, ghost was: seq<F>, ghost done: (nat, nat) -> bool,
                           out: array<F>, index: nat)
    requires c.Valid() && dots == Dots(ops, c) && c.n > 0 && out.Length == c.m * c.n && index < Units(c.m, c.n, c.rpw)
    requires State(out[..], was, ops, c, dots, done)
    requires forall r: nat, j: nat | r < c.m && j < c.n && Owner(c.m, c.n, c.rpw, r, j) == index :: !done(r, j)
    modifies out
    ensures State(out[..], was, ops, c, dots, With(done, Chosen(c.m, c.n, c.rpw, index)))
  {
    IndexInside(c.m, c.n, c.rpw, index);
    var groups, g := c.m / c.rpw, index / c.n;
    var j := index - g * c.n;
    if g < groups {
      MulSign(g, c.rpw);
      GroupUnit(ops, c, dots, was, done, out, index, g * c.rpw, j);
    } else {
      TailUnit(ops, c, dots, was, done, out, index, groups * c.rpw + (g - groups), j);
    }
  }

  /** The cells of the indices in `order`. */
  ghost function ChosenBy(m: nat, n: nat, rpw: nat, order: seq<nat>): (nat, nat) -> bool
    requires rpw > 0
  {
    (r: nat, j: nat) => Owner(m, n, rpw, r, j) in order
  }

  /** Every index once, in some order. */
  ghost predicate Schedule(order: seq<nat>, units: nat) {
    && (forall u: nat :: u in order <==> u < units)
    && forall i, k | 0 <= i < k < |order| :: order[i] != order[k]
  }

  lemma NextIndex(order: seq<nat>, k: nat)
    requires k < |order| && forall i, l | 0 <= i < l < |order| :: order[i] != order[l]
    ensures order[k] !in order[..k] && order[..k + 1] == order[..k] + [order[k]]
  {
  }

  /** The indices in any order, one after the other. */
  method RunOrder<F(!new)>(ops: Ops<F>, c: Gemm<F>, ghost dots: seq<seq<F>>, ghost was: seq<F>, out: array<F>, order: seq<nat>)
    requires c.Valid() && dots == Dots(ops, c) && c.n > 0 && out.Length == c.m * c.n && out[..] == was
    requires Schedule(order, Units(c.m, c.n, c.rpw))
    modifies out
    ensures State(out[..], was, ops, c, dots, ChosenBy(c.m, c.n, c.rpw, order))
  {
    Untouched(was, ops, c, dots);
    for k := 0 to |order|
      invariant State(out[..], was, ops, c, dots, ChosenBy(c.m, c.n, c.rpw, order[..k]))
    {
      NextIndex(order, k);
      assert order[k] in order;
      ghost var done := ChosenBy(c.m, c.n, c.rpw, order[..k]);
      RunIndex(ops, c, dots, was, done, out, order[k]);
      SameCells(out[..], was, ops, c, dots, With(done, Chosen(c.m, c.n, c.rpw, order[k])), ChosenBy(c.m, c.n, c.rpw, order[..k + 1]));
    }
    assert order[..|order|] == order;
  }

  lemma Untouched<F>(was: seq<F>, ops: Ops<F>, c: Gemm<F>, dots: seq<seq<F>>)
    requires c.Valid() && Grid(dots, c.m, c.n) && |was| == c.m * c.n
    ensures State(was, was, ops, c, dots, ChosenBy(c.m, c.n, c.rpw, []))
  {
    forall r: nat, j: nat | r < c.m && j < c.n ensures Output(was, was, ops, c, dots, false, r, j) {
      CellIn(r, j, c.m, c.n);
    }
  }

  lemma OutputDone<F>(s: seq<F>, was: seq<F>, ops: Ops<F>, c: Gemm<F>, dots: seq<seq<F>>, order: seq<nat>, r: nat, j: nat)
    requires c.Valid() && Grid(dots, c.m, c.n) && r < c.m && j < c.n && Schedule(order, Units(c.m, c.n, c.rpw))
    requires State(s, was, ops, c, dots, ChosenBy(c.m, c.n, c.rpw, order))
    ensures Output(s, was, ops, c, dots, true, r, j)
  {
    WrittenOnce(c.m, c.n, c.rpw, r, j);
    assert ChosenBy(c.m, c.n, c.rpw, order)(r, j);
    assert Output(s, was, ops, c, dots, ChosenBy(c.m, c.n, c.rpw, order)(r, j), r, j);
  }

  /** Main result: whatever order the threads take the indices in, every output ends as
      its own dot product with bias, stored or accumulated exactly once. */
  method Product<F(!new)>(ops: Ops<F>, c: Gemm<F>, out: array<F>, order: seq<nat>)
    requires c.Valid() && out.Length == c.m * c.n && Schedule(order, Units(c.m, c.n, c.rpw))
    modifies out
    ensures forall r: nat, j: nat | r < c.m && j < c.n :: Output(out[..], old(out[..]), ops, c, Dots(ops, c), true, r, j)
  {
    if c.n > 0 {
      ghost var was, dots := out[..], Dots(ops, c);
      RunOrder(ops, c, dots, was, out, order);
      forall r: nat, j: nat | r < c.m && j < c.n ensures Output(out[..], was, ops, c, dots, true, r, j) {
        OutputDone(out[..], was, ops, c, dots, order, r, j);
      }
    }
  }

  /** Main result: each output, grouped or in the tail, is the one-row kernel's value. */
  lemma DotIsRow<F(!new)>(ops: Ops<F>, P: F -> bool, c: Gemm<F>, r: nat, j: nat)
    requires c.Valid() && r < c.m && j < c.n && (c.kind == Q6K ==> ZeroLaws(ops, P))
    ensures RowFits(|c.acts|, c.nb, r) && c.RowInside(j) && Paired(c.kind, c.WeightRow(j), ActRow(c.acts, c.nb, r))
    ensures Dot(ops, c, r, j) == RowValue(ops, c.kind, c.WeightRow(j), ActRow(c.acts, c.nb, r))
  {
    RowIsPaired(c, r, j);
    TileIsRow(ops, P, c.kind, c.WeightRow(j), ActRow(c.acts, c.nb, r));
  }

  lemma Regrouped<F>(c: Gemm<F>, rpw: nat, j: nat)
    requires c.Valid() && rpw > 0 && j < c.n
    ensures c.(rpw := rpw).Valid() && c.RowInside(j) && c.(rpw := rpw).WeightRow(j) == c.WeightRow(j)
  {
    forall j: nat | j < c.n ensures c.(rpw := rpw).RowInside(j) {
      assert c.RowInside(j) && c.(rpw := rpw).RowBytes() == c.RowBytes();
    }
  }

  /** So the group size cannot be seen in any output. */
  lemma GroupSizeIsInvisible<F(!new)>(ops: Ops<F>, P: F -> bool, c: Gemm<F>, rpw: nat, r: nat, j: nat)
    requires c.Valid() && rpw > 0 && r < c.m && j < c.n && (c.kind == Q6K ==> ZeroLaws(ops, P))
    ensures c.(rpw := rpw).Valid() && Dot(ops, c.(rpw := rpw), r, j) == Dot(ops, c, r, j)
  {
    Regrouped(c, rpw, j);
    DotIsRow(ops, P, c, r, j);
    DotIsRow(ops, P, c.(rpw := rpw), r, j);
  }
}
