/** Bodies the pool's main theorem covers: units that read shared inputs, with scratch and
    without. */
module PoolBodies {
  import opened Partition
  import opened SpinPool
  import opened ChunkMemory
  import opened CallMemory

  /** Without scratch no cell is exempt. */
  lemma NoScratch<V(!new)>(p: Plan<V>, m: map<nat, V>, m': map<nat, V>)
    requires (forall a: nat | !AnyScratch(p, a) :: SameAt(a, m, m')) && forall id: nat, k: nat :: p.cells(id).scratch(k) == {}
    ensures m == m'
  {
    assert forall a: nat :: !AnyScratch(p, a);
    forall a: nat ensures a in m.Keys <==> a in m'.Keys {
      assert SameAt(a, m, m');
    }
    forall a: nat | a in m ensures m[a] == m'[a] {
      assert SameAt(a, m, m');
    }
  }

  /** The cells of such a body: every cell that no unit owns is an input. */
  ghost function PlainCells(n: nat, own: nat -> set<nat>): Cells {
    Cells(own, _ => {}, (a: nat) => Shared(n, own, a))
  }

  function PlainWork<V(!new)>(body: (nat, map<nat, V>) -> map<nat, V>): Work<V> {
    Work(_ => 1, (x: nat, k: nat, s: nat, m: map<nat, V>) => body(x, m))
  }

  /** One-step bodies that write what they own and read besides what nobody writes need no
      scratch at all. */
  lemma IndependentIsOk<V(!new)>(j: Job, own: nat -> set<nat>, body: (nat, map<nat, V>) -> map<nat, V>)
    requires Independent(j.total, own, body)
    ensures WorkOk(j, PlainCells(j.total, own), PlainWork(body))
  {
    var c, w := PlainCells(j.total, own), PlainWork(body);
    PlainApart(j.total, own, body);
    forall x: nat, k: nat, s: nat, m: map<nat, V>, m': map<nat, V> | x < j.total && k < j.chunks && SameView(c, x, k, m, m')
      ensures w.act(x, k, s, m) == w.act(x, k, s, m')
    {
      assert SameInputs(j.total, own, x, m, m');
    }
    forall x: nat, k: nat, k': nat, m: map<nat, V>, m': map<nat, V> |
      x < j.total && k < j.chunks && k' < j.chunks && SameGiven(c, x, m, m')
      ensures SameOn(c.own(x), UnitRun(w, x, k, m), UnitRun(w, x, k', m'))
    {
      assert SameInputs(j.total, own, x, m, m');
      OneStep(w, x, k, m);
      OneStep(w, x, k', m');
    }
  }

  lemma PlainApart<V(!new)>(n: nat, own: nat -> set<nat>, body: (nat, map<nat, V>) -> map<nat, V>)
    requires Independent(n, own, body)
    ensures Apart(n, PlainCells(n, own))
  {
  }

  lemma OneStep<V(!new)>(w: Work<V>, x: nat, k: nat, m: map<nat, V>)
    ensures After(w, x, k, 1, m) == m + w.act(x, k, 0, m)
  {
    assert After(w, x, k, 0, m) == m;
  }

  /** A body that copies the shared cell 0 to its own cell by way of its chunk's scratch. */
  function CopyWork(): Work<int> {
    Work(_ => 2, (x: nat, k: nat, s: nat, m: map<nat, int>) =>
           if s == 0 then map[2 * k + 2 := if 0 in m then m[0] else 0]
           else map[2 * x + 1 := if 2 * k + 2 in m then m[2 * k + 2] else 0])
  }

  function CopyCells(): Cells { Cells(x => {2 * x + 1}, k => {2 * k + 2}, a => a == 0) }

  /** Reading a shared input and using scratch are both allowed. */
  lemma CopyIsOk(j: Job)
    ensures WorkOk(j, CopyCells(), CopyWork())
  {
    CopyApart(j.total);
    CopyConfined(j);
    CopyWritesFirst(j);
  }

  lemma CopyApart(n: nat)
    ensures Apart(n, CopyCells())
  {
  }

  lemma CopyConfined(j: Job)
    ensures Confined(j, CopyCells(), CopyWork())
  {
    var c, w := CopyCells(), CopyWork();
    forall x: nat, k: nat, s: nat, m: map<nat, int>, m': map<nat, int> | x < j.total && k < j.chunks && SameView(c, x, k, m, m')
      ensures w.act(x, k, s, m) == w.act(x, k, s, m')
    {
      assert SameAt(0, m, m') && SameAt(2 * k + 2, m, m');
    }
  }

  lemma CopyWritesFirst(j: Job)
    ensures WritesFirst(j, CopyCells(), CopyWork())
  {
    var c, w := CopyCells(), CopyWork();
    forall x: nat, k: nat, k': nat, m: map<nat, int>, m': map<nat, int> |
      x < j.total && k < j.chunks && k' < j.chunks && SameGiven(c, x, m, m')
      ensures SameOn(c.own(x), UnitRun(w, x, k, m), UnitRun(w, x, k', m'))
    {
      assert SameAt(0, m, m');
      CopyUnit(x, k, m);
      CopyUnit(x, k', m');
    }
  }

  lemma CopyUnit(x: nat, k: nat, m: map<nat, int>)
    ensures var r := UnitRun(CopyWork(), x, k, m); 2 * x + 1 in r && r[2 * x + 1] == if 0 in m then m[0] else 0
  {
    var w := CopyWork();
    var one := After(w, x, k, 1, m);
    assert After(w, x, k, 0, m) == m;
    assert one == m + w.act(x, k, 0, m);
    assert After(w, x, k, 2, m) == one + w.act(x, k, 1, one);
  }
}
