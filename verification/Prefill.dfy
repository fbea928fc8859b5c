/** Batched causal prefill: tiles of eight query rows by two query heads, dealt to
    the pool from both ends, each folding its keys through the running triples of
    module `Flash`. */
module Prefill {
  import opened Arith
  import opened Flash
  import opened Attention

  // ----- which tile a unit is -----

  function Blocks(c: Call): nat { (c.qLen + ATTENTION_ROWS - 1) / ATTENTION_ROWS }
  function Groups(c: Call): nat { (c.Heads() + HEAD_BATCH - 1) / HEAD_BATCH }

  /** `block_of`: blocks are dealt `0, n - 1, 1, n - 2, ...`. */
  function BlockOf(blocks: nat, p: nat): int {
    if p % 2 != 0 then blocks - 1 - p / 2 else p / 2
  }

  /** The turn at which block `b` is dealt. */
  function TurnOf(blocks: nat, b: nat): int {
    if 2 * b < blocks then 2 * b else 2 * (blocks - 1 - b) + 1
  }

  /** The deal is a permutation of the blocks, with `TurnOf` its inverse. */
  lemma DealIsPermutation(blocks: nat, i: nat)
    requires i < blocks
    ensures 0 <= BlockOf(blocks, i) < blocks && TurnOf(blocks, BlockOf(blocks, i)) == i
    ensures 0 <= TurnOf(blocks, i) < blocks && BlockOf(blocks, TurnOf(blocks, i)) == i
  {
    if 2 * i < blocks {
      assert TurnOf(blocks, i) % 2 == 0;
    } else {
      assert TurnOf(blocks, i) == 2 * (blocks - 1 - i) + 1;
    }
  }

  /** The query rows `[t0, t0 + rows)` of the heads `[h0, h0 + heads)`, which all
      read KV head `kv`. */
  datatype Tile = Tile(t0: nat, rows: nat, h0: nat, heads: nat, kv: nat)
  {
    predicate Has(t: nat, h: nat) { t0 <= t < t0 + rows && h0 <= h < h0 + heads }

    predicate Fits(c: Call) {
      && 1 <= rows <= ATTENTION_ROWS && 1 <= heads <= HEAD_BATCH && kv < c.nHeadKv
      && t0 + rows <= c.qLen && h0 + heads <= c.Heads()
    }
  }

  function TileAt(c: Call, b: nat, g: nat): Tile
    requires c.Span() && b < Blocks(c) && g < Groups(c)
  {
    var t0 := b * ATTENTION_ROWS;
    var h0 := g * HEAD_BATCH;
    Tile(t0, Min(ATTENTION_ROWS, c.qLen - t0), h0, Min(HEAD_BATCH, c.Heads() - h0), h0 / c.group)
  }

  /** The KV head the tile kernel reads for query head `h`: that of the first head of
      its batch. */
  function KvRead(c: Call, h: nat): nat
    requires c.Span()
  {
    (h / HEAD_BATCH * HEAD_BATCH) / c.group
  }

  /** The only unit that writes query row `t` of head `h`. */
  function UnitOf(c: Call, t: nat, h: nat): int {
    TurnOf(Blocks(c), t / ATTENTION_ROWS) * Groups(c) + h / HEAD_BATCH
  }

  lemma TileFits(c: Call, b: nat, g: nat)
    requires c.Span() && b < Blocks(c) && g < Groups(c)
    ensures TileAt(c, b, g).Fits(c)
    ensures forall t: nat, h: nat | t < c.qLen && h < c.Heads() ::
              TileAt(c, b, g).Has(t, h) <==> t / ATTENTION_ROWS == b && h / HEAD_BATCH == g
    ensures forall t: nat, h: nat | TileAt(c, b, g).Has(t, h) :: KvRead(c, h) == TileAt(c, b, g).kv
  {
    var heads := c.Heads();
    DivIff(g * HEAD_BATCH, c.group, c.nHeadKv - 1);
    assert (c.nHeadKv - 1) * c.group + c.group == heads;
  }

  /** Every unit is some tile, every query row is in exactly the tile of its unit. */
  lemma UnitsPartition(c: Call, unit: nat)
    requires c.Span() && unit < Blocks(c) * Groups(c)
    ensures Groups(c) >= 1 && unit / Groups(c) < Blocks(c) && unit % Groups(c) < Groups(c)
    ensures unit - (unit / Groups(c)) * Groups(c) == unit % Groups(c)
    ensures 0 <= BlockOf(Blocks(c), unit / Groups(c)) < Blocks(c)
    ensures forall t: nat, h: nat | t < c.qLen && h < c.Heads() ::
              UnitOf(c, t, h) == unit <==> TileAt(c, BlockOf(Blocks(c), unit / Groups(c)), unit % Groups(c)).Has(t, h)
  {
    MulSign(c.nHeadKv - 1, c.group);
    assert (c.nHeadKv - 1) * c.group + c.group == c.Heads();
    var blocks, groups := Blocks(c), Groups(c);
    FlatUnit(unit, blocks, groups, 1);
    var p, g := unit / groups, unit % groups;
    DealIsPermutation(blocks, p);
    var b := BlockOf(blocks, p);
    TileFits(c, b, g);
    forall t: nat, h: nat | t < c.qLen && h < c.Heads()
      ensures UnitOf(c, t, h) == unit <==> TileAt(c, b, g).Has(t, h)
    {
      DealIsPermutation(blocks, t / ATTENTION_ROWS);
      SameUnit(TurnOf(blocks, t / ATTENTION_ROWS), h / HEAD_BATCH, p, g, groups, unit);
    }
  }

  lemma SameUnit(p': int, g': int, p: int, g: int, groups: int, unit: int)
    requires 0 <= g' < groups && 0 <= g < groups && unit == p * groups + g
    ensures p' * groups + g' == unit <==> p' == p && g' == g
  {
    Flat(p', g', groups);
    Flat(p, g, groups);
  }

  lemma UnitBounded(c: Call, t: nat, h: nat)
    requires c.Span() && t < c.qLen && h < c.Heads()
    ensures 0 <= UnitOf(c, t, h) < Blocks(c) * Groups(c)
  {
    DealIsPermutation(Blocks(c), t / ATTENTION_ROWS);
    FlatIn(TurnOf(Blocks(c), t / ATTENTION_ROWS), h / HEAD_BATCH, Blocks(c), Groups(c));
  }

  // ----- the tile's running triples -----

  /** Slot `2 * j + p` of the tile's scratch is query row `t0 + j` of head `h0 + p`. */
  const SLOTS := ATTENTION_ROWS * HEAD_BATCH

  function RowOf(i: nat): nat { i / HEAD_BATCH }
  function HeadOf(i: nat): nat { i % HEAD_BATCH }

  predicate Used(tile: Tile, i: nat) { RowOf(i) < tile.rows && HeadOf(i) < tile.heads }

  /** Slot `i` has folded exactly the keys `[firstKey, hi)`. */
  ghost predicate TileSlot(P: seq<seq<Float>>, c: Call, e: real -> real, tile: Tile, i: nat, hi: nat) {
    Slot(P, i, c, e, tile.t0 + RowOf(i), tile.h0 + HeadOf(i), tile.kv, c.firstKey, hi)
  }

  /** How far every slot has come. */
  ghost predicate TileSlots(P: seq<seq<Float>>, c: Call, e: real -> real, tile: Tile, seen: seq<nat>) {
    && |P| == SLOTS && |seen| == SLOTS
    && forall i: nat | i < SLOTS && Used(tile, i) :: TileSlot(P, c, e, tile, i, seen[i])
  }

  lemma TileSlotsStep(P: seq<seq<Float>>, P': seq<seq<Float>>, c: Call, e: real -> real, tile: Tile, seen: seq<nat>, i: nat, hi: nat)
    requires TileSlots(P, c, e, tile, seen) && i < SLOTS && |P'| == SLOTS && P' == P[i := P'[i]]
    requires TileSlot(P', c, e, tile, i, hi)
    ensures TileSlots(P', c, e, tile, seen[i := hi])
  {
    forall k: nat | k < SLOTS && Used(tile, k) ensures TileSlot(P', c, e, tile, k, seen[i := hi][k]) {
      if k != i { assert TileSlot(P, c, e, tile, k, seen[k]); }
    }
  }

  /** Fold key `s` into slot `(j, p)`, which has come exactly that far. */
  method FoldSlot(P: array<seq<Float>>, c: Call, e: real -> real, tile: Tile, ghost seen: seq<nat>, j: nat, p: nat, s: nat)
    returns (ghost seen': seq<nat>)
    requires ExpLaws(e) && c.Ready() && tile.Fits(c) && TileSlots(P[..], c, e, tile, seen)
    requires j < tile.rows && p < tile.heads && c.firstKey <= s < c.Rows() && seen[2 * j + p] == s
    modifies P
    ensures seen' == seen[2 * j + p := s + 1] && TileSlots(P[..], c, e, tile, seen')
  {
    var i, t, h := 2 * j + p, tile.t0 + j, tile.h0 + p;
    ghost var before := P[..];
    assert Slot(before, i, c, e, t, h, tile.kv, c.firstKey, s) by {
      assert RowOf(i) == j && HeadOf(i) == p && Used(tile, i);
      assert TileSlot(before, c, e, tile, i, seen[i]);
    }
    FoldKey(P, i, c, e, t, h, tile.kv, c.firstKey, s);
    assert TileSlot(P[..], c, e, tile, i, s + 1) by {
      assert RowOf(i) == j && HeadOf(i) == p;
    }
    TileSlotsStep(before, P[..], c, e, tile, seen, i, s + 1);
    seen' := seen[i := s + 1];
  }

  method ClearTile(P: array<seq<Float>>, c: Call, ghost e: real -> real, tile: Tile) returns (ghost seen: seq<nat>)
    requires tile.rows <= ATTENTION_ROWS && tile.heads <= HEAD_BATCH && P.Length == SLOTS
    modifies P
    ensures TileSlots(P[..], c, e, tile, seen) && forall i | 0 <= i < SLOTS :: seen[i] == c.firstKey
  {
    seen := seq(SLOTS, _ => c.firstKey);
    for j := 0 to tile.rows
      invariant forall i: nat | i < 2 * j && Used(tile, i) :: TileSlot(P[..], c, e, tile, i, c.firstKey)
    {
      for p := 0 to tile.heads
        invariant forall i: nat | i < 2 * j + p && Used(tile, i) :: TileSlot(P[..], c, e, tile, i, c.firstKey)
      {
        ghost var before := P[..];
        ghost var at := 2 * j + p;
        assert RowOf(at) == j && HeadOf(at) == p;
        ClearSlot(P, 2 * j + p, c, e, tile.t0 + j, tile.h0 + p, tile.kv, c.firstKey);
        forall i: nat | i < at + 1 && Used(tile, i) ensures TileSlot(P[..], c, e, tile, i, c.firstKey) {
          if i < at { assert TileSlot(before, c, e, tile, i, c.firstKey); }
        }
      }
    }
  }

  /** The rows from `from` on have folded the keys below `s`; row `j` before them has
      folded its own last key and nothing later. */
  ghost predicate Level(c: Call, tile: Tile, seen: seq<nat>, s: nat, from: nat) {
    && |seen| == SLOTS
    && forall i | 0 <= i < SLOTS && Used(tile, i) ::
         seen[i] == if RowOf(i) < from then c.qOffset + tile.t0 + RowOf(i) + 1 else s
  }

  /** A full tile folds a shared key head by head, each over its eight rows. */
  method FoldWide(P: array<seq<Float>>, c: Call, e: real -> real, tile: Tile, ghost seen: seq<nat>, s: nat)
    returns (ghost seen': seq<nat>)
    requires ExpLaws(e) && c.Ready() && tile.Fits(c) && TileSlots(P[..], c, e, tile, seen)
    requires c.firstKey <= s < c.Rows() && Level(c, tile, seen, s, 0)
    modifies P
    ensures TileSlots(P[..], c, e, tile, seen') && Level(c, tile, seen', s + 1, 0)
  {
    seen' := seen;
    for p := 0 to tile.heads
      invariant TileSlots(P[..], c, e, tile, seen')
      invariant forall i | 0 <= i < SLOTS && Used(tile, i) :: seen'[i] == if HeadOf(i) < p then s + 1 else s
    {
      for j := 0 to tile.rows
        invariant TileSlots(P[..], c, e, tile, seen')
        invariant forall i | 0 <= i < SLOTS && Used(tile, i) ::
                    seen'[i] == if HeadOf(i) < p || (HeadOf(i) == p && RowOf(i) < j) then s + 1 else s
      {
        seen' := FoldSlot(P, c, e, tile, seen', j, p, s);
      }
    }
  }

  /** Rows `[from, rows)` fold key `s` one row at a time, each over its heads. */
  method FoldRows(P: array<seq<Float>>, c: Call, e: real -> real, tile: Tile, ghost seen: seq<nat>, from: nat, s: nat)
    returns (ghost seen': seq<nat>)
    requires ExpLaws(e) && c.Ready() && tile.Fits(c) && TileSlots(P[..], c, e, tile, seen)
    requires c.firstKey <= s < c.Rows() && from <= tile.rows && Level(c, tile, seen, s, from)
    modifies P
    ensures TileSlots(P[..], c, e, tile, seen') && Level(c, tile, seen', s + 1, from)
  {
    seen' := seen;
    for j := from to tile.rows
      invariant TileSlots(P[..], c, e, tile, seen')
      invariant forall i | 0 <= i < SLOTS && Used(tile, i) ::
                  seen'[i] == if from <= RowOf(i) < j then s + 1 else seen[i]
    {
      for p := 0 to tile.heads
        invariant TileSlots(P[..], c, e, tile, seen')
        invariant forall i | 0 <= i < SLOTS && Used(tile, i) ::
                    seen'[i] == if from <= RowOf(i) < j || (RowOf(i) == j && HeadOf(i) < p) then s + 1 else seen[i]
      {
        seen' := FoldSlot(P, c, e, tile, seen', j, p, s);
      }
    }
  }

  /** The whole key walk of one tile: the shared span, head-major when the tile is
      full and row-major when it is short, then the causal triangle. */
  method WalkKeys(P: array<seq<Float>>, c: Call, e: real -> real, tile: Tile)
    requires ExpLaws(e) && c.Ready() && tile.Fits(c) && P.Length == SLOTS
    modifies P
    ensures forall i: nat | i < SLOTS && Used(tile, i) ::
              TileSlot(P[..], c, e, tile, i, c.qOffset + tile.t0 + RowOf(i) + 1)
  {
    ghost var seen := ClearTile(P, c, e, tile);
    var s := c.firstKey;
    var sharedEnd := c.qOffset + tile.t0;
    if tile.rows == ATTENTION_ROWS {
      while s <= sharedEnd
        invariant c.firstKey <= s <= sharedEnd + 1
        invariant TileSlots(P[..], c, e, tile, seen) && Level(c, tile, seen, s, 0)
      {
        seen := FoldWide(P, c, e, tile, seen, s);
        s := s + 1;
      }
    }
    while s <= sharedEnd
      invariant c.firstKey <= s <= sharedEnd + 1
      invariant TileSlots(P[..], c, e, tile, seen) && Level(c, tile, seen, s, 0)
    {
      seen := FoldRows(P, c, e, tile, seen, 0, s);
      s := s + 1;
    }
    for k := 1 to tile.rows
      invariant TileSlots(P[..], c, e, tile, seen) && Level(c, tile, seen, c.qOffset + tile.t0 + k, k)
    {
      seen := FoldRows(P, c, e, tile, seen, k, c.qOffset + tile.t0 + k);
    }
    forall i: nat | i < SLOTS && Used(tile, i)
      ensures TileSlot(P[..], c, e, tile, i, c.qOffset + tile.t0 + RowOf(i) + 1)
    {
      assert TileSlot(P[..], c, e, tile, i, seen[i]);
    }
  }

  // ----- the output -----

  function Sums(cells: seq<Float>): (sums: seq<real>)
    requires Triple(cells)
  {
    seq(|cells| - 2, (z: nat) requires z < |cells| - 2 => cells[2 + z].r)
  }

  lemma RepTotals(cells: seq<Float>, e: real -> real, f: Stream, lo: nat, hi: nat)
    requires ExpLaws(e) && lo < hi && Rep(cells, e, f, lo, hi)
    ensures cells[0].Fin? && Triple(cells)
    ensures Totals(cells[1].r, Sums(cells), e, f, lo, hi, cells[0].r)
  {
    MassPositive(e, f.x, lo, hi, 0.0);
    forall z | 0 <= z < |Sums(cells)| ensures Sums(cells)[z] == Sum(e, f.x, f.v(z), lo, hi, cells[0].r) {
      var a := 2 + z;
      assert cells[a] == Fin(Sum(e, f.x, f.v(a - 2), lo, hi, Ref(cells[0])));
    }
  }

  /** Query row `t` of head `h` averages KV head `kv` over exactly the keys up to its
      own position. */
  ghost predicate Written(out: seq<real>, c: Call, e: real -> real, t: nat, h: nat, kv: nat) {
    Done(out, c, e, t, h, kv, c.qOffset + t + 1)
  }

  /** Row `(t, h)` of the output has not moved. */
  ghost predicate RowSame(out: seq<real>, out': seq<real>, c: Call, t: nat, h: nat) {
    |out| == |out'| && forall a | c.QueryAt(t, h) <= a < c.QueryAt(t, h) + c.d && a < |out| :: out'[a] == out[a]
  }

  lemma WrittenKept(out: seq<real>, out': seq<real>, c: Call, e: real -> real, t: nat, h: nat, kv: nat)
    requires Written(out, c, e, t, h, kv) && RowSame(out, out', c, t, h)
    ensures Written(out', c, e, t, h, kv)
  {
    RowOutKept(out, out', c.QueryAt(t, h), c.d, e, RowStream(c, t, h, kv), c.firstKey, c.qOffset + t + 1);
  }

  /** Nothing but row `(t, h)` of the output moves. */
  ghost predicate OnlyRow(out: seq<real>, out': seq<real>, c: Call, t: nat, h: nat) {
    |out| == |out'|
    && forall a | 0 <= a < |out| && !(c.QueryAt(t, h) <= a < c.QueryAt(t, h) + c.d) :: out'[a] == out[a]
  }

  lemma OthersSame(out: seq<real>, out': seq<real>, c: Call, t: nat, h: nat, t': nat, h': nat)
    requires OnlyRow(out, out', c, t, h) && h < c.Heads() && h' < c.Heads() && (t != t' || h != h')
    ensures RowSame(out, out', c, t', h')
  {
    QueryApart(c, t, h, t', h');
  }

  /** Divide one triple by its denominator. */
  method StoreCells(cells: seq<Float>, at: nat, ghost e: real -> real, ghost f: Stream, ghost lo: nat, ghost hi: nat, out: array<real>)
    requires ExpLaws(e) && lo < hi && Rep(cells, e, f, lo, hi) && at + |cells| - 2 <= out.Length
    modifies out
    ensures RowOut(out[..], at, |cells| - 2, e, f, lo, hi)
    ensures forall a | 0 <= a < out.Length && !(at <= a < at + |cells| - 2) :: out[a] == old(out[a])
  {
    RepTotals(cells, e, f, lo, hi);
    Normalize(out, at, Sums(cells), cells[1].r, e, f, lo, hi, cells[0].r);
  }

  /** One query row of one head becomes its output row. */
  method StoreRow(cells: seq<Float>, c: Call, ghost e: real -> real, t: nat, h: nat, ghost kv: nat, out: array<real>)
    requires ExpLaws(e) && c.Ready() && t < c.qLen && h < c.Heads() && out.Length == |c.q|
    requires |cells| == c.d + 2 && Rep(cells, e, RowStream(c, t, h, kv), c.firstKey, c.qOffset + t + 1)
    modifies out
    ensures Written(out[..], c, e, t, h, kv)
    ensures OnlyRow(old(out[..]), out[..], c, t, h)
  {
    assert c.QueryIn(t, h);
    StoreCells(cells, c.QueryAt(t, h), e, RowStream(c, t, h, kv), c.firstKey, c.qOffset + t + 1, out);
  }

  /** The rows of the tile stored before `(j, p)`. */
  predicate Before(tile: Tile, t: nat, h: nat, j: nat, p: nat) {
    tile.Has(t, h) && (t < tile.t0 + j || (t == tile.t0 + j && h < tile.h0 + p))
  }

  ghost predicate Stored(was: seq<real>, out: seq<real>, c: Call, e: real -> real, tile: Tile, j: nat, p: nat) {
    && (forall t: nat, h: nat | Before(tile, t, h, j, p) :: Written(out, c, e, t, h, tile.kv))
    && (forall t: nat, h: nat | h < c.Heads() && !tile.Has(t, h) :: RowSame(was, out, c, t, h))
  }

  lemma StoredStep(was: seq<real>, out: seq<real>, out': seq<real>, c: Call, e: real -> real, tile: Tile, j: nat, p: nat)
    requires tile.Fits(c) && j < tile.rows && p < tile.heads && Stored(was, out, c, e, tile, j, p)
    requires Written(out', c, e, tile.t0 + j, tile.h0 + p, tile.kv)
    requires OnlyRow(out, out', c, tile.t0 + j, tile.h0 + p)
    ensures Stored(was, out', c, e, tile, j, p + 1)
  {
    var t', h' := tile.t0 + j, tile.h0 + p;
    forall t: nat, h: nat | Before(tile, t, h, j, p + 1) ensures Written(out', c, e, t, h, tile.kv) {
      if t != t' || h != h' {
        assert Before(tile, t, h, j, p);
        OthersSame(out, out', c, t', h', t, h);
        WrittenKept(out, out', c, e, t, h, tile.kv);
      }
    }
    forall t: nat, h: nat | h < c.Heads() && !tile.Has(t, h) ensures RowSame(was, out', c, t, h) {
      assert tile.Has(t', h') && RowSame(was, out, c, t, h);
      OthersSame(out, out', c, t', h', t, h);
    }
  }

  method StoreTile(P: seq<seq<Float>>, c: Call, ghost e: real -> real, tile: Tile, out: array<real>)
    requires ExpLaws(e) && c.Ready() && tile.Fits(c) && out.Length == |c.q|
    requires forall i: nat | i < SLOTS && Used(tile, i) :: TileSlot(P, c, e, tile, i, c.qOffset + tile.t0 + RowOf(i) + 1)
    modifies out
    ensures Stored(old(out[..]), out[..], c, e, tile, tile.rows, 0)
  {
    ghost var was := out[..];
    for j := 0 to tile.rows
      invariant Stored(was, out[..], c, e, tile, j, 0)
    {
      for p := 0 to tile.heads
        invariant Stored(was, out[..], c, e, tile, j, p)
      {
        ghost var before := out[..];
        var i := 2 * j + p;
        assert RowOf(i) == j && HeadOf(i) == p && Used(tile, i);
        StoreRow(P[i], c, e, tile.t0 + j, tile.h0 + p, tile.kv, out);
        StoredStep(was, before, out[..], c, e, tile, j, p);
      }
      assert forall t: nat, h: nat | Before(tile, t, h, j + 1, 0) :: Before(tile, t, h, j, tile.heads);
    }
  }

  /** The rows of every unit below `unit` are done, the others untouched. */
  ghost predicate UnitsDone(was: seq<real>, out: seq<real>, c: Call, e: real -> real, unit: nat)
    requires c.Span()
  {
    && |out| == |was|
    && forall t: nat, h: nat | t < c.qLen && h < c.Heads() ::
         if UnitOf(c, t, h) < unit then Written(out, c, e, t, h, KvRead(c, h)) else RowSame(was, out, c, t, h)
  }

  lemma UnitsDoneStep(was: seq<real>, out: seq<real>, out': seq<real>, c: Call, e: real -> real, unit: nat, tile: Tile)
    requires c.Span() && tile.Fits(c) && |out'| == |out| && UnitsDone(was, out, c, e, unit)
    requires Stored(out, out', c, e, tile, tile.rows, 0)
    requires forall t: nat, h: nat | t < c.qLen && h < c.Heads() :: UnitOf(c, t, h) == unit <==> tile.Has(t, h)
    requires forall t: nat, h: nat | tile.Has(t, h) :: KvRead(c, h) == tile.kv
    ensures UnitsDone(was, out', c, e, unit + 1)
  {
    forall t: nat, h: nat | t < c.qLen && h < c.Heads()
      ensures if UnitOf(c, t, h) < unit + 1 then Written(out', c, e, t, h, KvRead(c, h)) else RowSame(was, out', c, t, h)
    {
      if tile.Has(t, h) {
        assert Before(tile, t, h, tile.rows, 0);
      } else {
        assert RowSame(out, out', c, t, h);
        if UnitOf(c, t, h) < unit {
          WrittenKept(out, out', c, e, t, h, KvRead(c, h));
        }
      }
    }
  }

  /** Batched prefill, taken by every call of more than one token: every query row of
      every head is written, by one unit only, as the average of KV head `KvRead` over
      exactly the keys it may see. */
  method Prefill(c: Call, e: real -> real, out: array<real>) returns (ok: bool)
    requires ExpLaws(e) && c.Valid() && c.qLen > 1 && out.Length == |c.q|
    modifies out
    ensures ok <==> c.group <= 8
    ensures !ok ==> out[..] == old(out[..])
    ensures ok ==> forall t: nat, h: nat | t < c.qLen && h < c.Heads() :: Written(out[..], c, e, t, h, KvRead(c, h))
  {
    if c.group > MAX_GROUP {
      return false;
    }
    ok := true;
    AllInside(c, c.Rows());
    PrefillUnits(c, e, out);
    forall t: nat, h: nat | t < c.qLen && h < c.Heads() ensures Written(out[..], c, e, t, h, KvRead(c, h)) {
      UnitBounded(c, t, h);
    }
  }

  method PrefillUnits(c: Call, e: real -> real, out: array<real>)
    requires ExpLaws(e) && c.Ready() && out.Length == |c.q|
    modifies out
    ensures UnitsDone(old(out[..]), out[..], c, e, Blocks(c) * Groups(c))
  {
    ghost var was := out[..];
    var units := Blocks(c) * Groups(c);
    forall t: nat, h: nat | t < c.qLen && h < c.Heads() ensures UnitOf(c, t, h) >= 0 {
      UnitBounded(c, t, h);
    }
    for unit := 0 to units
      invariant UnitsDone(was, out[..], c, e, unit)
    {
      var tile := PickTile(c, unit);
      ghost var before := out[..];
      var P := new seq<Float>[SLOTS];
      WalkKeys(P, c, e, tile);
      StoreTile(P[..], c, e, tile, out);
      UnitsDoneStep(was, before, out[..], c, e, unit, tile);
    }
  }

  /** Which tile unit `unit` computes. */
  method PickTile(c: Call, unit: nat) returns (tile: Tile)
    requires c.Span() && unit < Blocks(c) * Groups(c)
    ensures tile.Fits(c)
    ensures forall t: nat, h: nat | t < c.qLen && h < c.Heads() :: UnitOf(c, t, h) == unit <==> tile.Has(t, h)
    ensures forall t: nat, h: nat | tile.Has(t, h) :: KvRead(c, h) == tile.kv
  {
    UnitsPartition(c, unit);
    var p := unit / Groups(c);
    var g := unit - p * Groups(c);
    var b := BlockOf(Blocks(c), p);
    TileFits(c, b, g);
    tile := TileAt(c, b, g);
  }
}
