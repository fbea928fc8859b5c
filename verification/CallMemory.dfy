/** The memory of several calls that overlap in time: as long as no call touches what another
    one writes, memory is what the finished calls leave one after another, but for the cells
    of the calls still running. */
module CallMemory {
  import opened Partition
  import opened SpinPool
  import opened ChunkMemory

  /** What call number `id` touches and does. */
  datatype Plan<!V(!new)> = Plan(cells: nat -> Cells, works: nat -> Work<V>)

  /** A running call: which one, the memory when it began, and where its chunks stand. */
  datatype Act<V(!new)> = Act(id: nat, base: map<nat, V>, marks: seq<Mark>)

  ghost predicate AnyScratch<V(!new)>(p: Plan<V>, a: nat) { exists id: nat :: InScratch(p.cells(id), a) }

  /** Cell `a` is an output of the call. */
  ghost predicate Output(j: Job, c: Cells, a: nat) { !Shared(j.total, c.own, a) }

  ghost predicate Writes(j: Job, c: Cells, a: nat) { Output(j, c, a) || InScratch(c, a) }

  ghost predicate Touches(j: Job, c: Cells, a: nat) { Writes(j, c, a) || c.input(a) }

  /** Call `i` writes nothing that call `k` touches. */
  ghost predicate Apart2<V(!new)>(p: Plan<V>, asked: seq<Job>, i: nat, k: nat)
    requires i < |asked| && k < |asked|
  {
    forall a: nat | Writes(asked[i], p.cells(i), a) :: !Touches(asked[k], p.cells(k), a)
  }

  /** Each call keeps to its cells, and none takes another's scratch for input or output. */
  ghost predicate PlanOk<V(!new)>(p: Plan<V>, asked: seq<Job>) {
    && (forall id: nat | id < |asked| :: WorkOk(asked[id], p.cells(id), p.works(id)))
    && forall id: nat, a: nat | id < |asked| && (Output(asked[id], p.cells(id), a) || p.cells(id).input(a)) :: !AnyScratch(p, a)
  }

  /** Every running call is a known one. */
  ghost predicate Known<V(!new)>(asked: seq<Job>, acts: map<nat, Act<V>>) {
    forall c | c in acts :: acts[c].id < |asked| && 1 <= asked[acts[c].id].chunks <= asked[acts[c].id].total
  }

  /** No two running calls race. */
  ghost predicate NoRace<V(!new)>(p: Plan<V>, asked: seq<Job>, acts: map<nat, Act<V>>)
    requires Known(asked, acts)
  {
    forall c, d | c in acts && d in acts && c != d :: Apart2(p, asked, acts[c].id, acts[d].id)
  }

  ghost predicate ActOk<V(!new)>(p: Plan<V>, asked: seq<Job>, act: Act<V>, mem: map<nat, V>, serial: map<nat, V>)
    requires act.id < |asked| && asked[act.id].chunks >= 1
  {
    && Interleaved(asked[act.id], p.cells(act.id), p.works(act.id), act.base, mem, act.marks)
    && SameStart(asked[act.id].total, p.cells(act.id), act.base, serial)
  }

  /** No running call writes cell `a`, and it is nobody's scratch. */
  ghost predicate Quiet<V(!new)>(p: Plan<V>, asked: seq<Job>, acts: map<nat, Act<V>>, a: nat)
    requires Known(asked, acts)
  {
    !AnyScratch(p, a) && forall c | c in acts :: !Output(asked[acts[c].id], p.cells(acts[c].id), a)
  }

  /** `serial` is what the finished calls leave. */
  ghost predicate MemOk<V(!new)>(p: Plan<V>, asked: seq<Job>, acts: map<nat, Act<V>>, mem: map<nat, V>, serial: map<nat, V>) {
    && Known(asked, acts)
    && (forall c | c in acts :: ActOk(p, asked, acts[c], mem, serial))
    && forall a: nat | Quiet(p, asked, acts, a) :: SameAt(a, mem, serial)
  }

  // ----- a running call moves -----

  /** What a call touches has not moved, so neither has the call. */
  lemma Undisturbed<V(!new)>(j: Job, c: Cells, w: Work<V>, base: map<nat, V>, mem: map<nat, V>, mem': map<nat, V>, marks: seq<Mark>)
    requires 1 <= j.chunks <= j.total && Interleaved(j, c, w, base, mem, marks)
    requires forall a: nat | Touches(j, c, a) :: SameAt(a, mem', mem)
    ensures Interleaved(j, c, w, base, mem', marks)
  {
    forall k: nat, a: nat | k < j.chunks && Region(j, c, k, a) ensures SameAt(a, mem', Alone(w, BoundOf(j, k), marks[k], k, base)) {
      if a in c.scratch(k) {
        assert InScratch(c, a);
      } else {
        var x: nat :| InChunk(j, k, x) && a in c.own(x);
        InsideTotal(j, k, x);
      }
      assert Touches(j, c, a);
    }
    forall a: nat | c.input(a) ensures SameAt(a, mem', base) {
      assert Touches(j, c, a);
    }
  }

  /** What the calls but `c` touch has not moved. */
  lemma OthersStand<V(!new)>(p: Plan<V>, asked: seq<Job>, acts: map<nat, Act<V>>, mem: map<nat, V>, mem': map<nat, V>,
                             serial: map<nat, V>, c: nat, d: nat)
    requires MemOk(p, asked, acts, mem, serial) && NoRace(p, asked, acts) && c in acts && d in acts && c != d
    requires forall a: nat :: Writes(asked[acts[c].id], p.cells(acts[c].id), a) || SameAt(a, mem', mem)
    ensures ActOk(p, asked, acts[d], mem', serial)
  {
    var j, cells := asked[acts[d].id], p.cells(acts[d].id);
    forall a: nat | Touches(j, cells, a) ensures SameAt(a, mem', mem) {
      assert Apart2(p, asked, acts[c].id, acts[d].id);
    }
    Undisturbed(j, cells, p.works(acts[d].id), acts[d].base, mem, mem', acts[d].marks);
  }

  /** A small step moves only what its call may write. */
  lemma StepMoves<V(!new)>(j: Job, c: Cells, w: Work<V>, mem: map<nat, V>, x: nat, k: nat, s: nat, a: nat)
    requires WorkOk(j, c, w) && x < j.total && k < j.chunks && !Writes(j, c, a)
    ensures SameAt(a, mem + w.act(x, k, s, mem), mem)
  {
    assert a !in c.own(x) && a !in c.scratch(k);
    assert w.act(x, k, s, mem).Keys <= c.own(x) + c.scratch(k);
  }

  lemma OwnStep<V(!new)>(p: Plan<V>, asked: seq<Job>, act: Act<V>, mem: map<nat, V>, serial: map<nat, V>, k: nat, m: Mark)
    requires act.id < |asked| && 1 <= asked[act.id].chunks <= asked[act.id].total && ActOk(p, asked, act, mem, serial)
    requires WorkOk(asked[act.id], p.cells(act.id), p.works(act.id))
    requires k < asked[act.id].chunks && m == act.marks[k] && InChunk(asked[act.id], k, m.x)
    ensures ActOk(p, asked, act.(marks := act.marks[k := Mark(m.x, m.s + 1)]), mem + p.works(act.id).act(m.x, k, m.s, mem), serial)
  {
    ChunkSteps(asked[act.id], p.cells(act.id), p.works(act.id), act.base, mem, act.marks, k);
  }

  /** Chunk `k` of call `c` takes a small step. */
  lemma CallSteps<V(!new)>(p: Plan<V>, asked: seq<Job>, acts: map<nat, Act<V>>, mem: map<nat, V>, serial: map<nat, V>, c: nat, k: nat,
                           m: Mark)
    requires PlanOk(p, asked) && MemOk(p, asked, acts, mem, serial) && NoRace(p, asked, acts) && c in acts
    requires k < asked[acts[c].id].chunks && m == acts[c].marks[k] && InChunk(asked[acts[c].id], k, m.x)
    ensures MemOk(p, asked, acts[c := acts[c].(marks := acts[c].marks[k := Mark(m.x, m.s + 1)])],
                  mem + p.works(acts[c].id).act(m.x, k, m.s, mem), serial)
  {
    var act := acts[c];
    var j, cells, w := asked[act.id], p.cells(act.id), p.works(act.id);
    var mem', acts' := mem + w.act(m.x, k, m.s, mem), acts[c := act.(marks := act.marks[k := Mark(m.x, m.s + 1)])];
    InsideTotal(j, k, m.x);
    forall a: nat ensures Writes(j, cells, a) || SameAt(a, mem', mem) {
      if !Writes(j, cells, a) { StepMoves(j, cells, w, mem, m.x, k, m.s, a); }
    }
    OwnStep(p, asked, act, mem, serial, k, m);
    forall e | e in acts' ensures ActOk(p, asked, acts'[e], mem', serial) {
      if e != c { OthersStand(p, asked, acts, mem, mem', serial, c, e); }
    }
    SameQuiet(p, asked, acts, acts', mem, mem', serial, c);
  }

  /** A cell that no running call writes is where it was. */
  lemma SameQuiet<V(!new)>(p: Plan<V>, asked: seq<Job>, acts: map<nat, Act<V>>, acts': map<nat, Act<V>>, mem: map<nat, V>,
                           mem': map<nat, V>, serial: map<nat, V>, c: nat)
    requires MemOk(p, asked, acts, mem, serial) && c in acts && acts'.Keys == acts.Keys && Known(asked, acts')
    requires forall d | d in acts :: acts'[d].id == acts[d].id
    requires forall a: nat :: Writes(asked[acts[c].id], p.cells(acts[c].id), a) || SameAt(a, mem', mem)
    ensures forall a: nat | Quiet(p, asked, acts', a) :: SameAt(a, mem', serial)
  {
    forall a: nat | Quiet(p, asked, acts', a) ensures SameAt(a, mem', serial) {
      assert forall d | d in acts :: !Output(asked[acts'[d].id], p.cells(acts'[d].id), a);
      assert Quiet(p, asked, acts, a);
      assert !Writes(asked[acts[c].id], p.cells(acts[c].id), a);
    }
  }

  /** Chunk `k` of call `c` goes on to its next unit. */
  lemma CallTurns<V(!new)>(p: Plan<V>, asked: seq<Job>, acts: map<nat, Act<V>>, mem: map<nat, V>, serial: map<nat, V>, c: nat, k: nat,
                           m: Mark)
    requires MemOk(p, asked, acts, mem, serial) && c in acts
    requires k < asked[acts[c].id].chunks && m == acts[c].marks[k] && InChunk(asked[acts[c].id], k, m.x) && m.s == p.works(acts[c].id).len(m.x)
    ensures MemOk(p, asked, acts[c := acts[c].(marks := acts[c].marks[k := Mark(m.x + 1, 0)])], mem, serial)
  {
    var act := acts[c];
    var acts' := acts[c := act.(marks := act.marks[k := Mark(m.x + 1, 0)])];
    OwnTurn(p, asked, act, mem, serial, k, m);
    forall e | e in acts' ensures ActOk(p, asked, acts'[e], mem, serial) {
      if e != c { assert ActOk(p, asked, acts[e], mem, serial); }
    }
    SameQuiet(p, asked, acts, acts', mem, mem, serial, c);
  }

  lemma OwnTurn<V(!new)>(p: Plan<V>, asked: seq<Job>, act: Act<V>, mem: map<nat, V>, serial: map<nat, V>, k: nat, m: Mark)
    requires act.id < |asked| && 1 <= asked[act.id].chunks <= asked[act.id].total && ActOk(p, asked, act, mem, serial)
    requires k < asked[act.id].chunks && m == act.marks[k] && InChunk(asked[act.id], k, m.x) && m.s == p.works(act.id).len(m.x)
    ensures ActOk(p, asked, act.(marks := act.marks[k := Mark(m.x + 1, 0)]), mem, serial)
  {
    ChunkTurns(asked[act.id], p.cells(act.id), p.works(act.id), act.base, mem, act.marks, k);
  }

  // ----- calls begin and end -----

  /** A call begins: what it is given is as the finished calls left it. */
  lemma CallStarts<V(!new)>(p: Plan<V>, asked: seq<Job>, acts: map<nat, Act<V>>, mem: map<nat, V>, serial: map<nat, V>, c: nat,
                            id: nat, marks: seq<Mark>)
    requires PlanOk(p, asked) && MemOk(p, asked, acts, mem, serial) && c !in acts
    requires id < |asked| && 1 <= asked[id].chunks <= asked[id].total && |marks| == asked[id].chunks
    requires forall k: nat | k < asked[id].chunks :: marks[k] == Mark(BoundOf(asked[id], k), 0)
    requires NoRace(p, asked, acts[c := Act(id, mem, marks)])
    ensures MemOk(p, asked, acts[c := Act(id, mem, marks)], mem, serial)
  {
    var j, cells, acts' := asked[id], p.cells(id), acts[c := Act(id, mem, marks)];
    NothingRan(j, cells, p.works(id), mem, marks);
    forall a: nat | !Shared(j.total, cells.own, a) || cells.input(a) ensures SameAt(a, mem, serial) {
      GivenIsQuiet(p, asked, acts, c, id, Act(id, mem, marks), a);
    }
    forall a: nat | Quiet(p, asked, acts', a) ensures SameAt(a, mem, serial) {
      assert forall d | d in acts :: acts'[d] == acts[d];
      assert Quiet(p, asked, acts, a);
    }
  }

  lemma GivenIsQuiet<V(!new)>(p: Plan<V>, asked: seq<Job>, acts: map<nat, Act<V>>, c: nat, id: nat, act: Act<V>, a: nat)
    requires PlanOk(p, asked) && Known(asked, acts) && c !in acts && act.id == id < |asked|
    requires Known(asked, acts[c := act]) && NoRace(p, asked, acts[c := act])
    requires Output(asked[id], p.cells(id), a) || p.cells(id).input(a)
    ensures Quiet(p, asked, acts, a)
  {
    assert Touches(asked[id], p.cells(id), a);
    var acts' := acts[c := act];
    forall d | d in acts ensures !Output(asked[acts[d].id], p.cells(acts[d].id), a) {
      assert acts'[d] == acts[d] && acts'[c] == act;
      assert Apart2(p, asked, acts'[d].id, acts'[c].id);
    }
  }

  /** What a whole call moves. */
  lemma CallMoves<V(!new)>(j: Job, c: Cells, w: Work<V>, mem: map<nat, V>, a: nat)
    requires WorkOk(j, c, w) && 1 <= j.chunks <= j.total && !Writes(j, c, a)
    ensures SameAt(a, Units(w, 0, j.total, 0, mem), mem)
  {
    assert a !in c.scratch(0);
    UnitsConfined(j, c, w, 0, j.total, 0, mem, a);
  }

  /** A call ends: its serial loop joins the finished ones. */
  lemma CallStops<V(!new)>(p: Plan<V>, asked: seq<Job>, acts: map<nat, Act<V>>, mem: map<nat, V>, serial: map<nat, V>, c: nat)
    requires PlanOk(p, asked) && MemOk(p, asked, acts, mem, serial) && NoRace(p, asked, acts) && c in acts
    requires var j := asked[acts[c].id]; forall k: nat | k < j.chunks :: acts[c].marks[k] == Mark(BoundOf(j, k + 1), 0)
    ensures MemOk(p, asked, acts - {c}, mem, Units(p.works(acts[c].id), 0, asked[acts[c].id].total, 0, serial))
  {
    var act, acts' := acts[c], acts - {c};
    var j, cells, w := asked[act.id], p.cells(act.id), p.works(act.id);
    var serial' := Units(w, 0, j.total, 0, serial);
    AllRan(j, cells, w, act.base, mem, act.marks, serial);
    forall d | d in acts' ensures ActOk(p, asked, acts'[d], mem, serial') {
      StillGiven(p, asked, acts, mem, serial, serial', c, d);
    }
    forall a: nat | Quiet(p, asked, acts', a) ensures SameAt(a, mem, serial') {
      if Output(j, cells, a) {
        var x: nat :| x < j.total && a in cells.own(x);
        assert SameOn(cells.own(x), mem, serial');
      } else {
        QuietBefore(p, asked, acts, c, a);
        CallMoves(j, cells, w, serial, a);
      }
    }
  }

  lemma QuietBefore<V(!new)>(p: Plan<V>, asked: seq<Job>, acts: map<nat, Act<V>>, c: nat, a: nat)
    requires Known(asked, acts) && c in acts && Quiet(p, asked, acts - {c}, a) && !Output(asked[acts[c].id], p.cells(acts[c].id), a)
    ensures Quiet(p, asked, acts, a) && !Writes(asked[acts[c].id], p.cells(acts[c].id), a)
  {
    var acts' := acts - {c};
    assert forall d | d in acts :: d == c || (d in acts' && acts'[d] == acts[d]);
  }

  lemma StillGiven<V(!new)>(p: Plan<V>, asked: seq<Job>, acts: map<nat, Act<V>>, mem: map<nat, V>, serial: map<nat, V>,
                            serial': map<nat, V>, c: nat, d: nat)
    requires PlanOk(p, asked) && MemOk(p, asked, acts, mem, serial) && NoRace(p, asked, acts) && c in acts && d in acts && c != d
    requires serial' == Units(p.works(acts[c].id), 0, asked[acts[c].id].total, 0, serial)
    ensures ActOk(p, asked, acts[d], mem, serial')
  {
    var j, cells := asked[acts[d].id], p.cells(acts[d].id);
    var j', cells', w' := asked[acts[c].id], p.cells(acts[c].id), p.works(acts[c].id);
    assert ActOk(p, asked, acts[d], mem, serial);
    forall a: nat | Output(j, cells, a) || cells.input(a) ensures SameAt(a, acts[d].base, serial') {
      assert Touches(j, cells, a) && Apart2(p, asked, acts[c].id, acts[d].id);
      CallMoves(j', cells', w', serial, a);
    }
  }

  // ----- the finished calls -----

  /** The memory after the calls `done`, each run as one serial loop. */
  function SerialRuns<V(!new)>(p: Plan<V>, asked: seq<Job>, done: seq<nat>, mem: map<nat, V>): map<nat, V>
    requires forall id | id in done :: id < |asked|
  {
    if done == [] then mem
    else
      var n := |done| - 1;
      assert done[n] in done && forall id | id in done[..n] :: id in done;
      Units(p.works(done[n]), 0, asked[done[n]].total, 0, SerialRuns(p, asked, done[..n], mem))
  }

  /** A later question changes nothing. */
  lemma {:induction false} MoreAsked<V(!new)>(p: Plan<V>, asked: seq<Job>, j: Job, done: seq<nat>, mem: map<nat, V>)
    requires forall id | id in done :: id < |asked|
    ensures SerialRuns(p, asked + [j], done, mem) == SerialRuns(p, asked, done, mem)
    decreases |done|
  {
    if done != [] {
      var n := |done| - 1;
      assert forall id | id in done[..n] :: id in done;
      assert done[n] in done;
      MoreAsked(p, asked, j, done[..n], mem);
    }
  }

  lemma MoreKnown<V(!new)>(p: Plan<V>, asked: seq<Job>, j: Job, acts: map<nat, Act<V>>, mem: map<nat, V>, serial: map<nat, V>)
    requires MemOk(p, asked, acts, mem, serial)
    ensures MemOk(p, asked + [j], acts, mem, serial)
  {
    var more := asked + [j];
    assert forall id: nat | id < |asked| :: more[id] == asked[id];
    forall c | c in acts ensures ActOk(p, more, acts[c], mem, serial) {
      assert ActOk(p, asked, acts[c], mem, serial);
    }
    forall a: nat | Quiet(p, more, acts, a) ensures SameAt(a, mem, serial) {
      assert Quiet(p, asked, acts, a);
    }
  }

  /** With nothing running, memory outside scratch is what the finished calls leave. */
  lemma NothingRuns<V(!new)>(p: Plan<V>, asked: seq<Job>, mem: map<nat, V>, serial: map<nat, V>)
    requires MemOk(p, asked, map[], mem, serial)
    ensures forall a: nat | !AnyScratch(p, a) :: SameAt(a, mem, serial)
  {
    forall a: nat | !AnyScratch(p, a) ensures SameAt(a, mem, serial) {
      assert Quiet(p, asked, map[], a);
    }
  }
}
