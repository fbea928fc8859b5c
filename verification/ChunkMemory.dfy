/** The memory of one parallel call.  A unit of work is a series of small steps; the units
    of a chunk run in order, and the steps of different chunks interleave freely.  Each unit
    writes its own outputs and the scratch of its chunk, and may read besides those what
    nobody in the call writes. */
module ChunkMemory {
  import opened Partition
  import opened SpinPool

  /** Unit `x` takes `len(x)` steps; as part of chunk `k`, its step `s` writes
      `act(x, k, s, mem)`. */
  datatype Work<!V(!new)> = Work(len: nat -> nat, act: (nat, nat, nat, map<nat, V>) -> map<nat, V>)

  /** How far a chunk has come: `s` steps into unit `x`. */
  datatype Mark = Mark(x: nat, s: nat)

  // ----- what a thread computes on its own -----

  /** The first `s` steps of unit `x` in chunk `k`. */
  function After<V(!new)>(w: Work<V>, x: nat, k: nat, s: nat, mem: map<nat, V>): map<nat, V> {
    if s == 0 then mem else var m := After(w, x, k, s - 1, mem); m + w.act(x, k, s - 1, m)
  }

  function UnitRun<V(!new)>(w: Work<V>, x: nat, k: nat, mem: map<nat, V>): map<nat, V> {
    After(w, x, k, w.len(x), mem)
  }

  /** The units `[lo, hi)`, one after another, with the scratch of chunk `k`. */
  function Units<V(!new)>(w: Work<V>, lo: nat, hi: nat, k: nat, mem: map<nat, V>): map<nat, V>
    decreases hi
  {
    if hi <= lo then mem else UnitRun(w, hi - 1, k, Units(w, lo, hi - 1, k, mem))
  }

  /** Chunk `k` from `lo` up to its mark, with nobody else running. */
  function Alone<V(!new)>(w: Work<V>, lo: nat, mark: Mark, k: nat, mem: map<nat, V>): map<nat, V> {
    After(w, mark.x, k, mark.s, Units(w, lo, mark.x, k, mem))
  }

  // ----- chunks -----

  /** The `k`-th bound of a call. */
  function BoundOf(j: Job, k: nat): nat
    requires j.chunks >= 1
  {
    Arith.MulSign(k, j.total);
    Arith.DivIff(j.total * k, j.chunks, 0);
    Lo(j.total, j.chunks, k)
  }

  ghost predicate InChunk(j: Job, k: nat, x: nat)
    requires j.chunks >= 1
  {
    k < j.chunks && BoundOf(j, k) <= x < BoundOf(j, k + 1)
  }

  /** A unit lies in one chunk only, and every unit lies in one. */
  lemma ChunksApart(j: Job, k: nat, x: nat, k': nat)
    requires 1 <= j.chunks <= j.total && InChunk(j, k, x) && InChunk(j, k', x)
    ensures k == k'
  {
    InsideTotal(j, k, x);
    RangeHolds(j.total, j.chunks, x, k);
    RangeHolds(j.total, j.chunks, x, k');
  }

  lemma InsideTotal(j: Job, k: nat, x: nat)
    requires 1 <= j.chunks <= j.total && InChunk(j, k, x)
    ensures x < j.total
  {
    RangeGrows(j.total, j.chunks, k, k + 1);
  }

  lemma SomeChunk(j: Job, x: nat) returns (k: nat)
    requires 1 <= j.chunks <= j.total && x < j.total
    ensures InChunk(j, k, x)
  {
    ChunkInRange(j.total, j.chunks, x);
    k := ChunkOf(j.total, j.chunks, x);
    RangeHolds(j.total, j.chunks, x, k);
  }

  // ----- who may touch what -----

  /** What a call touches: unit `x` owns `own(x)`, chunk `k` has the scratch `scratch(k)`, and
      everybody may read the inputs. */
  datatype Cells = Cells(own: nat -> set<nat>, scratch: nat -> set<nat>, input: nat -> bool)

  /** No cell of a call of `n` units has two owners, and nobody writes an input. */
  ghost predicate Apart(n: nat, c: Cells) {
    && (forall x: nat, y: nat | x < y < n :: c.own(x) !! c.own(y))
    && (forall k: nat, l: nat | k < l :: c.scratch(k) !! c.scratch(l))
    && (forall x: nat, k: nat | x < n :: c.own(x) !! c.scratch(k))
    && forall a: nat | c.input(a) :: Shared(n, c.own, a) && !InScratch(c, a)
  }

  ghost predicate InScratch(c: Cells, a: nat) { exists k: nat :: a in c.scratch(k) }

  /** The memories agree on all that unit `x` may read in chunk `k`. */
  ghost predicate SameView<V(!new)>(c: Cells, x: nat, k: nat, m: map<nat, V>, m': map<nat, V>) {
    forall a | a in c.own(x) || a in c.scratch(k) || c.input(a) :: SameAt(a, m, m')
  }

  /** The memories agree on what unit `x` is given: its own cells and the inputs. */
  ghost predicate SameGiven<V(!new)>(c: Cells, x: nat, m: map<nat, V>, m': map<nat, V>) {
    forall a | a in c.own(x) || c.input(a) :: SameAt(a, m, m')
  }

  /** On what all units are given. */
  ghost predicate SameStart<V(!new)>(n: nat, c: Cells, m: map<nat, V>, m': map<nat, V>) {
    forall a: nat | !Shared(n, c.own, a) || c.input(a) :: SameAt(a, m, m')
  }

  /** A step writes and reads only what its unit and its chunk may. */
  ghost predicate Confined<V(!new)>(j: Job, c: Cells, w: Work<V>) {
    && (forall x: nat, k: nat, s: nat, m: map<nat, V> | x < j.total && k < j.chunks ::
          w.act(x, k, s, m).Keys <= c.own(x) + c.scratch(k))
    && (forall x: nat, k: nat, s: nat, m: map<nat, V>, m': map<nat, V> |
          x < j.total && k < j.chunks && SameView(c, x, k, m, m') ::
          w.act(x, k, s, m) == w.act(x, k, s, m'))
  }

  /** A unit writes its scratch before it reads it: its outputs depend neither on what the
      scratch held nor on whose scratch it is. */
  ghost predicate WritesFirst<V(!new)>(j: Job, c: Cells, w: Work<V>) {
    forall x: nat, k: nat, k': nat, m: map<nat, V>, m': map<nat, V> |
      x < j.total && k < j.chunks && k' < j.chunks && SameGiven(c, x, m, m') ::
      SameOn(c.own(x), UnitRun(w, x, k, m), UnitRun(w, x, k', m'))
  }

  predicate SameOn<V(==)>(cells: set<nat>, m: map<nat, V>, m': map<nat, V>) { forall a | a in cells :: SameAt(a, m, m') }

  ghost predicate WorkOk<V(!new)>(j: Job, c: Cells, w: Work<V>) {
    Apart(j.total, c) && Confined(j, c, w) && WritesFirst(j, c, w)
  }

  // ----- footprints of runs -----

  lemma {:induction false} AfterConfined<V(!new)>(j: Job, c: Cells, w: Work<V>, x: nat, k: nat,
                                                  s: nat, mem: map<nat, V>, a: nat)
    requires Confined(j, c, w) && x < j.total && k < j.chunks && a !in c.own(x) && a !in c.scratch(k)
    ensures SameAt(a, After(w, x, k, s, mem), mem)
  {
    if s > 0 {
      AfterConfined(j, c, w, x, k, s - 1, mem, a);
      assert a !in w.act(x, k, s - 1, After(w, x, k, s - 1, mem)).Keys;
    }
  }

  lemma {:induction false} UnitsConfined<V(!new)>(j: Job, c: Cells, w: Work<V>, lo: nat, hi: nat,
                                                  k: nat, mem: map<nat, V>, a: nat)
    requires Confined(j, c, w) && hi <= j.total && k < j.chunks && a !in c.scratch(k)
    requires forall x: nat | lo <= x < hi :: a !in c.own(x)
    ensures SameAt(a, Units(w, lo, hi, k, mem), mem)
    decreases hi
  {
    if hi > lo {
      UnitsConfined(j, c, w, lo, hi - 1, k, mem, a);
      AfterConfined(j, c, w, hi - 1, k, w.len(hi - 1), Units(w, lo, hi - 1, k, mem), a);
    }
  }

  /** A chunk on its own leaves the inputs alone. */
  lemma AloneKeepsInput<V(!new)>(j: Job, c: Cells, w: Work<V>, lo: nat, mark: Mark, k: nat, mem: map<nat, V>, a: nat)
    requires Confined(j, c, w) && Apart(j.total, c) && mark.x < j.total && k < j.chunks && c.input(a)
    ensures SameAt(a, Alone(w, lo, mark, k, mem), mem)
  {
    assert !InScratch(c, a) && Shared(j.total, c.own, a);
    UnitsConfined(j, c, w, lo, mark.x, k, mem, a);
    AfterConfined(j, c, w, mark.x, k, mark.s, Units(w, lo, mark.x, k, mem), a);
  }

  /** What unit `x` leaves in its own cells, in whatever range and chunk it runs. */
  lemma {:induction false} UnitValue<V(!new)>(j: Job, c: Cells, w: Work<V>, lo: nat, hi: nat, k: nat, x: nat,
                                              mem: map<nat, V>, mem': map<nat, V>)
    requires WorkOk(j, c, w) && lo <= x < hi <= j.total && k < j.chunks && SameGiven(c, x, mem, mem')
    ensures SameOn(c.own(x), Units(w, lo, hi, k, mem), UnitRun(w, x, 0, mem'))
    decreases hi
  {
    var u := Units(w, lo, hi - 1, k, mem);
    if hi - 1 == x {
      forall a | a in c.own(x) || c.input(a) ensures SameAt(a, u, mem') {
        GivenApart(j.total, c, x, a);
        UnitsConfined(j, c, w, lo, x, k, mem, a);
      }
      assert SameGiven(c, x, u, mem');
    } else {
      UnitValue(j, c, w, lo, hi - 1, k, x, mem, mem');
      forall a | a in c.own(x) ensures SameAt(a, Units(w, lo, hi, k, mem), u) {
        assert c.own(x) !! c.own(hi - 1);
        AfterConfined(j, c, w, hi - 1, k, w.len(hi - 1), u, a);
      }
    }
  }

  lemma GivenApart(n: nat, c: Cells, x: nat, a: nat)
    requires Apart(n, c) && x < n && (a in c.own(x) || c.input(a))
    ensures !InScratch(c, a) && forall y: nat | y < n && y != x :: a !in c.own(y)
  {
    forall y: nat | y < n && y != x ensures a !in c.own(y) {
      if a in c.own(x) {
        if x < y { assert c.own(x) !! c.own(y); } else { assert c.own(y) !! c.own(x); }
      } else {
        assert Shared(n, c.own, a);
      }
    }
  }

  // ----- the interleaving -----

  /** Cell `a` belongs to chunk `k`. */
  ghost predicate Region(j: Job, c: Cells, k: nat, a: nat)
    requires j.chunks >= 1
  {
    a in c.scratch(k) || exists x: nat :: InChunk(j, k, x) && a in c.own(x)
  }

  /** Each chunk's cells are as if it had run alone up to its mark, and the inputs have not
      moved. */
  ghost predicate Interleaved<V(!new)>(j: Job, c: Cells, w: Work<V>, base: map<nat, V>,
                                       mem: map<nat, V>, marks: seq<Mark>)
    requires j.chunks >= 1
  {
    && |marks| == j.chunks
    && (forall k: nat, a: nat | k < j.chunks && Region(j, c, k, a) ::
          SameAt(a, mem, Alone(w, BoundOf(j, k), marks[k], k, base)))
    && forall a: nat | c.input(a) :: SameAt(a, mem, base)
  }

  lemma RegionsApart(j: Job, c: Cells, k: nat, x: nat, k': nat, a: nat)
    requires Apart(j.total, c) && 1 <= j.chunks <= j.total && InChunk(j, k, x) && k' < j.chunks && k' != k
    requires Region(j, c, k', a)
    ensures a !in c.own(x) && a !in c.scratch(k)
  {
    InsideTotal(j, k, x);
    assert c.scratch(k) !! c.scratch(k') by { if k < k' { assert c.scratch(k) !! c.scratch(k'); } else { assert c.scratch(k') !! c.scratch(k); } }
    if a !in c.scratch(k') {
      var y: nat :| InChunk(j, k', y) && a in c.own(y);
      InsideTotal(j, k', y);
      if x == y { ChunksApart(j, k, x, k'); }
      if x < y { assert c.own(x) !! c.own(y); } else { assert c.own(y) !! c.own(x); }
      assert c.own(y) !! c.scratch(k);
    }
  }

  /** A thread sees what it would see were it alone. */
  lemma ViewIsAlone<V(!new)>(j: Job, c: Cells, w: Work<V>, base: map<nat, V>, mem: map<nat, V>,
                             marks: seq<Mark>, k: nat)
    requires WorkOk(j, c, w) && 1 <= j.chunks <= j.total && Interleaved(j, c, w, base, mem, marks)
    requires k < j.chunks && InChunk(j, k, marks[k].x)
    ensures var alone := Alone(w, BoundOf(j, k), marks[k], k, base);
            SameView(c, marks[k].x, k, mem, alone)
            && w.act(marks[k].x, k, marks[k].s, mem) == w.act(marks[k].x, k, marks[k].s, alone)
  {
    var x, alone := marks[k].x, Alone(w, BoundOf(j, k), marks[k], k, base);
    InsideTotal(j, k, x);
    forall a | a in c.own(x) || a in c.scratch(k) || c.input(a) ensures SameAt(a, mem, alone) {
      if c.input(a) {
        AloneKeepsInput(j, c, w, BoundOf(j, k), marks[k], k, base, a);
      } else {
        assert Region(j, c, k, a);
      }
    }
  }

  /** Chunk `k` takes a step. */
  lemma ChunkSteps<V(!new)>(j: Job, c: Cells, w: Work<V>, base: map<nat, V>, mem: map<nat, V>,
                            marks: seq<Mark>, k: nat)
    requires WorkOk(j, c, w) && 1 <= j.chunks <= j.total && Interleaved(j, c, w, base, mem, marks)
    requires k < j.chunks && InChunk(j, k, marks[k].x)
    ensures var m := marks[k];
            Interleaved(j, c, w, base, mem + w.act(m.x, k, m.s, mem), marks[k := Mark(m.x, m.s + 1)])
  {
    var x, s := marks[k].x, marks[k].s;
    var d, marks' := w.act(x, k, s, mem), marks[k := Mark(x, s + 1)];
    ViewIsAlone(j, c, w, base, mem, marks, k);
    InsideTotal(j, k, x);
    assert Alone(w, BoundOf(j, k), marks'[k], k, base) == Alone(w, BoundOf(j, k), marks[k], k, base) + d;
    forall l: nat, a: nat | l < j.chunks && Region(j, c, l, a)
      ensures SameAt(a, mem + d, Alone(w, BoundOf(j, l), marks'[l], l, base))
    {
      assert SameAt(a, mem, Alone(w, BoundOf(j, l), marks[l], l, base));
      if l != k { RegionsApart(j, c, k, x, l, a); }
    }
    forall a: nat | c.input(a) ensures SameAt(a, mem + d, base) {
      assert Shared(j.total, c.own, a) && !InScratch(c, a) && SameAt(a, mem, base);
    }
  }

  /** Chunk `k` goes on to its next unit. */
  lemma ChunkTurns<V(!new)>(j: Job, c: Cells, w: Work<V>, base: map<nat, V>, mem: map<nat, V>,
                            marks: seq<Mark>, k: nat)
    requires j.chunks >= 1 && Interleaved(j, c, w, base, mem, marks)
    requires k < j.chunks && InChunk(j, k, marks[k].x) && marks[k].s == w.len(marks[k].x)
    ensures Interleaved(j, c, w, base, mem, marks[k := Mark(marks[k].x + 1, 0)])
  {
    var marks' := marks[k := Mark(marks[k].x + 1, 0)];
    assert Alone(w, BoundOf(j, k), marks'[k], k, base) == Alone(w, BoundOf(j, k), marks[k], k, base);
  }

  lemma NothingRan<V(!new)>(j: Job, c: Cells, w: Work<V>, mem: map<nat, V>, marks: seq<Mark>)
    requires j.chunks >= 1 && |marks| == j.chunks && forall k: nat | k < j.chunks :: marks[k] == Mark(BoundOf(j, k), 0)
    ensures Interleaved(j, c, w, mem, mem, marks)
  {
  }

  /** Main result: however the steps interleaved, a finished call leaves in its units'
      cells what the serial loop leaves. */
  lemma AllRan<V(!new)>(j: Job, c: Cells, w: Work<V>, base: map<nat, V>, mem: map<nat, V>, marks: seq<Mark>, base': map<nat, V>)
    requires WorkOk(j, c, w) && 1 <= j.chunks <= j.total && Interleaved(j, c, w, base, mem, marks)
    requires forall k: nat | k < j.chunks :: marks[k] == Mark(BoundOf(j, k + 1), 0)
    requires SameStart(j.total, c, base, base')
    ensures forall x: nat | x < j.total :: SameOn(c.own(x), mem, Units(w, 0, j.total, 0, base'))
  {
    forall x: nat, a: nat | x < j.total && a in c.own(x) ensures SameAt(a, mem, Units(w, 0, j.total, 0, base')) {
      OwnedCell(j, c, w, base, mem, marks, base', x, a);
    }
  }

  lemma OwnedCell<V(!new)>(j: Job, c: Cells, w: Work<V>, base: map<nat, V>, mem: map<nat, V>, marks: seq<Mark>, base': map<nat, V>,
                           x: nat, a: nat)
    requires WorkOk(j, c, w) && 1 <= j.chunks <= j.total && Interleaved(j, c, w, base, mem, marks)
    requires forall k: nat | k < j.chunks :: marks[k] == Mark(BoundOf(j, k + 1), 0)
    requires SameStart(j.total, c, base, base') && x < j.total && a in c.own(x)
    ensures SameAt(a, mem, Units(w, 0, j.total, 0, base'))
  {
    var k := SomeChunk(j, x);
    RangeGrows(j.total, j.chunks, k, k + 1);
    assert Region(j, c, k, a) && SameGiven(c, x, base, base');
    UnitValue(j, c, w, BoundOf(j, k), BoundOf(j, k + 1), k, x, base, base');
    SameGivenAll(c, x, base');
    UnitValue(j, c, w, 0, j.total, 0, x, base', base');
  }

  lemma SameGivenAll<V(!new)>(c: Cells, x: nat, m: map<nat, V>)
    ensures SameGiven(c, x, m, m)
  {
  }

  /** Scratch as the kernels lay it out: `size` cells for each chunk, from `at` on. */
  function ScratchOf(at: nat, size: nat, k: nat): set<nat> {
    set i: nat | i < size :: Place(at, size, k, i)
  }

  function Place(at: nat, size: nat, k: nat, i: nat): nat {
    Arith.MulSign(k, size);
    at + (k * size + i)
  }

  /** No two chunks share a cell of it. */
  lemma ScratchApart(at: nat, size: nat, k: nat, l: nat)
    requires k != l
    ensures ScratchOf(at, size, k) !! ScratchOf(at, size, l)
  {
    forall i: nat, i': nat | i < size && i' < size ensures Place(at, size, k, i) != Place(at, size, l, i') {
      Arith.Flat(k, i, size);
      Arith.Flat(l, i', size);
    }
  }
}
