/** The pool with the memory its bodies work on: whatever the interleaving, once no caller is
    inside a call memory is what the serial loops of all the calls asked for leave.

    A machine is the pool's books together with how far each thread is inside its range.  A
    thread inside a body takes one small step at a time and leaves when its range is done,
    so the steps of different chunks, and of calls that overlap, interleave freely. */
module PoolMemory {
  import opened Partition
  import opened SpinPool
  import opened ChunkMemory
  import opened CallMemory
  import opened PoolLedger
  import opened PoolMarks

  /** `wpos` and `cpos` are the marks of the workers and of the callers; `base` is history:
      the memory when each caller's last call began to run. */
  datatype Machine<V(!new)> = Machine(books: Ledger, wpos: seq<Mark>, cpos: seq<Mark>, base: seq<map<nat, V>>, mem: map<nat, V>)

  predicate Sized<V(!new)>(m: Machine<V>) {
    && |m.wpos| == |m.books.pool.workers| && |m.cpos| == |m.base| == |m.books.cur| == |m.books.pool.callers|
  }

  /** The call a job number stands for. */
  function CallOf(l: Ledger, g: nat): nat { if 1 <= g <= |l.pubs| then l.pubs[g - 1] else 0 }

  /** The last unit, exclusive, of the range caller `c` is running. */
  function RangeEnd(s: Pool, pc: CallerPc): nat {
    if pc.Inline? then pc.j.total else Bound(s.jobs, s.job, 1)
  }

  function MachineStep<V(!new)>(m: Machine<V>, t: Thread, works: nat -> Work<V>): Machine<V>
    requires Present(m.books.pool, t) && Sized(m)
  {
    var l, s := m.books, m.books.pool;
    match t
    case AsWorker(i) =>
      var p, at := s.workers[i], m.wpos[i];
      if p.pc.Body? && at.x < Bound(s.jobs, p.pc.job, p.index + 1) then
        var w := works(CallOf(l, p.pc.job));
        m.(wpos := m.wpos[i := Next(w.len(at.x), at)], mem := Wrote(w, at, p.index, m.mem))
      else
        m.(books := LedgerStep(l, t),
           wpos := if p.pc.Enter? then m.wpos[i := Mark(Bound(s.jobs, s.job, p.index), 0)] else m.wpos)
    case AsCaller(c, _, _) =>
      var pc, at := s.callers[c], m.cpos[c];
      if (pc.Run? || pc.Inline?) && at.x < RangeEnd(s, pc) then
        var w := works(l.cur[c]);
        m.(cpos := m.cpos[c := Next(w.len(at.x), at)], mem := Wrote(w, at, 0, m.mem))
      else
        var l' := LedgerStep(l, t);
        m.(books := l',
           cpos := if pc.Begin? || pc.Out? then m.cpos[c := Mark(0, 0)] else m.cpos,
           base := if pc.Bump? || pc.Out? then m.base[c := m.mem] else m.base)
    case AsDestructor => m.(books := LedgerStep(l, t))
  }

  // ----- the invariant -----

  /** A caller whose call is running. */
  predicate Active(pc: CallerPc) { pc.Inline? || pc.Begin? || pc.Run? || pc.Barrier? }

  /** Where the running call of caller `c` stands. */
  ghost predicate ActAt<V(!new)>(s: Pool, asked: seq<Job>, p: Plan<V>, wpos: seq<Mark>, pos: Mark, pc: CallerPc, act: Act<V>)
    requires TakenOk(s) && |wpos| == |s.workers| && (Flying(pc) ==> Holding(s))
  {
    && act.id < |asked| && asked[act.id].chunks >= 1
    && (pc.Inline? ==> asked[act.id].chunks == 1 && act.marks == [pos] && Inside(pos, p.works(act.id).len, 0, asked[act.id].total))
    && (Flying(pc) ==>
          MarksAre(s, wpos, pos, asked[act.id], act.marks) && PosOk(s, wpos, pos, asked[act.id], p.works(act.id).len))
  }

  /** `acts` are the running calls. */
  ghost predicate ActsAre<V(!new)>(m: Machine<V>, p: Plan<V>, acts: map<nat, Act<V>>)
    requires Inv(m.books.pool) && Sized(m)
  {
    && (forall c: nat :: c in acts <==> c < |m.books.pool.callers| && Active(m.books.pool.callers[c]))
    && forall c: nat | c in acts ::
         && acts[c].id == m.books.cur[c] && acts[c].base == m.base[c]
         && ActAt(m.books.pool, m.books.asked, p, m.wpos, m.cpos[c], m.books.pool.callers[c], acts[c])
  }

  /** What the calls that are over leave, one after another. */
  ghost function Serially<V(!new)>(l: Ledger, p: Plan<V>, mem0: map<nat, V>): map<nat, V>
    requires LedgerOk(l)
  {
    SerialRuns(p, l.asked, l.done, mem0)
  }

  ghost predicate MachineOk<V(!new)>(m: Machine<V>, p: Plan<V>, mem0: map<nat, V>) {
    LedgerOk(m.books) && Sized(m) && exists acts :: MachineAt(m, p, mem0, acts)
  }

  ghost predicate MachineAt<V(!new)>(m: Machine<V>, p: Plan<V>, mem0: map<nat, V>, acts: map<nat, Act<V>>)
    requires LedgerOk(m.books) && Sized(m)
  {
    ActsAre(m, p, acts) && MemOk(p, m.books.asked, acts, m.mem, Serially(m.books, p, mem0))
  }

  /** No two calls that are running at once race. */
  ghost predicate RaceFree<V(!new)>(l: Ledger, p: Plan<V>) {
    forall c: nat, d: nat | c < |l.pool.callers| == |l.cur| && d < |l.pool.callers| && c != d
                            && Active(l.pool.callers[c]) && Active(l.pool.callers[d])
                            && l.cur[c] < |l.asked| && l.cur[d] < |l.asked| ::
      Apart2(p, l.asked, l.cur[c], l.cur[d])
  }

  lemma NoneRace<V(!new)>(m: Machine<V>, p: Plan<V>, acts: map<nat, Act<V>>)
    requires Inv(m.books.pool) && Sized(m) && RaceFree(m.books, p) && ActsAre(m, p, acts) && Known(m.books.asked, acts)
    ensures NoRace(p, m.books.asked, acts)
  {
  }

  // ----- a thread takes a small step -----

  /** Chunk `k` of caller `c`'s call, at a unit of its range, moves on by one small step. */
  lemma ActMoves<V(!new)>(p: Plan<V>, asked: seq<Job>, acts: map<nat, Act<V>>, mem: map<nat, V>, serial: map<nat, V>, c: nat, k: nat,
                          at: Mark, w: Work<V>, act': Act<V>)
    requires PlanOk(p, asked) && MemOk(p, asked, acts, mem, serial) && NoRace(p, asked, acts) && c in acts
    requires k < asked[acts[c].id].chunks && at == acts[c].marks[k] && InChunk(asked[acts[c].id], k, at.x)
    requires w == p.works(acts[c].id) && at.s <= w.len(at.x)
    requires act' == acts[c].(marks := acts[c].marks[k := Next(w.len(at.x), at)])
    ensures MemOk(p, asked, acts[c := act'], Wrote(w, at, k, mem), serial)
  {
    NextIs(w, at, k, mem);
    if at.s < w.len(at.x) {
      CallSteps(p, asked, acts, mem, serial, c, k, at);
    } else {
      CallTurns(p, asked, acts, mem, serial, c, k, at);
    }
  }

  lemma NextIs<V(!new)>(w: Work<V>, at: Mark, k: nat, mem: map<nat, V>)
    ensures at.s < w.len(at.x) ==> Next(w.len(at.x), at) == Mark(at.x, at.s + 1) && Wrote(w, at, k, mem) == mem + w.act(at.x, k, at.s, mem)
    ensures at.s >= w.len(at.x) ==> Next(w.len(at.x), at) == Mark(at.x + 1, 0) && Wrote(w, at, k, mem) == mem
  {
  }

  /** The call in flight, in the books. */
  lemma FlyingCall(callers: seq<CallerPc>, jobs: seq<Job>, cur: seq<nat>, asked: seq<Job>, pubs: seq<nat>, done: seq<nat>, c: nat)
    requires BooksOk(callers, jobs, cur, asked, pubs, done) && c < |callers| && Flying(callers[c])
    ensures |pubs| == |jobs| > 0 && cur[c] == pubs[|pubs| - 1] < |asked| && asked[cur[c]] == jobs[|jobs| - 1]
    ensures asked[cur[c]].chunks > 1 && asked[cur[c]].chunks <= asked[cur[c]].total
  {
    assert CurOk(callers[c], cur[c], asked, pubs);
  }

  /** The call caller `c` runs, and its act. */
  lemma ActOf<V(!new)>(m: Machine<V>, p: Plan<V>, acts: map<nat, Act<V>>, c: nat)
    requires Inv(m.books.pool) && Sized(m) && ActsAre(m, p, acts) && c < |m.books.pool.callers| && Active(m.books.pool.callers[c])
    ensures c in acts && acts[c].id == m.books.cur[c] && acts[c].base == m.base[c]
    ensures ActAt(m.books.pool, m.books.asked, p, m.wpos, m.cpos[c], m.books.pool.callers[c], acts[c])
  {
  }

  lemma ChunkAt(j: Job, k: nat, at: Mark, len: nat -> nat)
    requires 1 <= j.chunks <= j.total && k < j.chunks && Inside(at, len, BoundOf(j, k), BoundOf(j, k + 1)) && at.x < BoundOf(j, k + 1)
    ensures InChunk(j, k, at.x) && at.s <= len(at.x)
  {
  }

  /** Worker `i` moves inside its chunk, and with it the call in flight. */
  lemma WorkerAdvances<V(!new)>(s: Pool, asked: seq<Job>, p: Plan<V>, wpos: seq<Mark>, pos: Mark, pc: CallerPc, act: Act<V>, i: nat,
                                w: Work<V>, act': Act<V>)
    requires Inv(s) && |wpos| == |s.workers| && i < |wpos| && s.workers[i].pc.Body? && Holding(s) && Flying(pc)
    requires act.id < |asked| && |s.jobs| > 0 && asked[act.id] == s.jobs[|s.jobs| - 1] && 1 <= asked[act.id].chunks <= asked[act.id].total
    requires ActAt(s, asked, p, wpos, pos, pc, act) && w == p.works(act.id)
    requires wpos[i].x < BoundOf(asked[act.id], s.workers[i].index + 1) && s.workers[i].index < asked[act.id].chunks
    requires act' == act.(marks := act.marks[s.workers[i].index := Next(w.len(wpos[i].x), wpos[i])])
    ensures ActAt(s, asked, p, wpos[i := Next(w.len(wpos[i].x), wpos[i])], pos, pc, act')
    ensures var k := s.workers[i].index; act.marks[k] == wpos[i] && InChunk(asked[act.id], k, wpos[i].x) && wpos[i].s <= w.len(wpos[i].x)
  {
    var j, k, at := asked[act.id], s.workers[i].index, wpos[i];
    WorkerMarksMove(s, i, wpos, pos, Next(w.len(at.x), at), j, act.marks);
    ChunkAt(j, k, at, w.len);
    NextInside(at, w.len, BoundOf(j, k), BoundOf(j, k + 1));
    WorkerPos(s, i, wpos, pos, Next(w.len(at.x), at), j, w.len);
  }

  /** The machine after worker `i` took a small step in the call of caller `c`. */
  function WorkerMoved<V(!new)>(m: Machine<V>, i: nat, w: Work<V>): Machine<V>
    requires i < |m.wpos| && i < |m.books.pool.workers|
  {
    var at := m.wpos[i];
    m.(wpos := m.wpos[i := Next(w.len(at.x), at)], mem := Wrote(w, at, m.books.pool.workers[i].index, m.mem))
  }

  /** Worker `i` is in the call of caller `c`, at a unit of its range. */
  ghost predicate WorkerIn<V(!new)>(m: Machine<V>, i: nat, c: nat)
    requires Sized(m)
  {
    var s, l := m.books.pool, m.books;
    && i < |m.wpos| && c < |m.cpos| && l.cur[c] < |l.asked| && s.workers[i].pc.Body?
    && s.holder == Some(c) && Flying(s.callers[c]) && |s.jobs| > 0
    && l.asked[l.cur[c]] == s.jobs[|s.jobs| - 1] && 1 <= l.asked[l.cur[c]].chunks <= l.asked[l.cur[c]].total
    && s.workers[i].index < l.asked[l.cur[c]].chunks && m.wpos[i].x < BoundOf(l.asked[l.cur[c]], s.workers[i].index + 1)
  }

  /** The act of caller `c` after that step. */
  function WorkerAct<V(!new)>(m: Machine<V>, i: nat, w: Work<V>, act: Act<V>): Act<V>
    requires i < |m.wpos| && i < |m.books.pool.workers| && m.books.pool.workers[i].index < |act.marks|
  {
    act.(marks := act.marks[m.books.pool.workers[i].index := Next(w.len(m.wpos[i].x), m.wpos[i])])
  }

  lemma WorkerFliesActs<V(!new)>(m: Machine<V>, i: nat, c: nat, p: Plan<V>, acts: map<nat, Act<V>>, w: Work<V>)
    requires Inv(m.books.pool) && Sized(m) && ActsAre(m, p, acts) && WorkerIn(m, i, c) && w == p.works(m.books.cur[c])
    ensures c in acts && acts[c].id == m.books.cur[c] && m.books.pool.workers[i].index < |acts[c].marks|
    ensures Sized(WorkerMoved(m, i, w)) && ActsAre(WorkerMoved(m, i, w), p, acts[c := WorkerAct(m, i, w, acts[c])])
    ensures var k, at := m.books.pool.workers[i].index, m.wpos[i];
            acts[c].marks[k] == at && InChunk(m.books.asked[acts[c].id], k, at.x) && at.s <= w.len(at.x)
  {
    var s := m.books.pool;
    ActOf(m, p, acts, c);
    assert |acts[c].marks| == m.books.asked[acts[c].id].chunks;
    WorkerAdvances(s, m.books.asked, p, m.wpos, m.cpos[c], s.callers[c], acts[c], i, w, WorkerAct(m, i, w, acts[c]));
    WorkerActs(m, WorkerMoved(m, i, w), p, acts, i, c, WorkerAct(m, i, w, acts[c]));
  }

  /** Only the call in flight sees a worker move. */
  lemma WorkerActs<V(!new)>(m: Machine<V>, m': Machine<V>, p: Plan<V>, acts: map<nat, Act<V>>, i: nat, c: nat, act: Act<V>)
    requires Inv(m.books.pool) && Sized(m) && ActsAre(m, p, acts) && i < |m.wpos| && m.books.pool.holder == Some(c) && c in acts
    requires m'.books == m.books && m'.cpos == m.cpos && m'.base == m.base && |m'.wpos| == |m.wpos| && act.id == acts[c].id && act.base == acts[c].base
    requires Flying(m.books.pool.callers[c])
    requires ActAt(m.books.pool, m.books.asked, p, m'.wpos, m.cpos[c], m.books.pool.callers[c], act)
    ensures ActsAre(m', p, acts[c := act])
  {
    var acts', s := acts[c := act], m.books.pool;
    forall d: nat | d in acts' && d != c ensures ActAt(s, m.books.asked, p, m'.wpos, m.cpos[d], s.callers[d], acts'[d]) {
      assert ActAt(s, m.books.asked, p, m.wpos, m.cpos[d], s.callers[d], acts[d]);
      assert Outside(s.callers[d]);
    }
  }

  lemma WorkerFlies<V(!new)>(m: Machine<V>, i: nat, c: nat, p: Plan<V>, mem0: map<nat, V>, acts: map<nat, Act<V>>, w: Work<V>)
    requires LedgerOk(m.books) && Sized(m) && MachineAt(m, p, mem0, acts) && PlanOk(p, m.books.asked) && NoRace(p, m.books.asked, acts)
    requires WorkerIn(m, i, c) && w == p.works(m.books.cur[c])
    ensures MachineOk(WorkerMoved(m, i, w), p, mem0)
  {
    WorkerFliesActs(m, i, c, p, acts, w);
    ActMoves(p, m.books.asked, acts, m.mem, Serially(m.books, p, mem0), c, m.books.pool.workers[i].index, m.wpos[i], w,
             WorkerAct(m, i, w, acts[c]));
    assert MachineAt(WorkerMoved(m, i, w), p, mem0, acts[c := WorkerAct(m, i, w, acts[c])]);
  }

  lemma WorkersCall<V(!new)>(m: Machine<V>, i: nat)
    requires LedgerOk(m.books) && Sized(m) && i < |m.books.pool.workers|
    requires var w := m.books.pool.workers[i]; w.pc.Body? && m.wpos[i].x < Bound(m.books.pool.jobs, w.pc.job, w.index + 1)
    ensures m.books.pool.holder.Some? && WorkerIn(m, i, m.books.pool.holder.value)
    ensures CallOf(m.books, m.books.pool.workers[i].pc.job) == m.books.cur[m.books.pool.holder.value]
  {
    var s, l := m.books.pool, m.books;
    WorkerOwns(s, i);
    FlyingCall(s.callers, s.jobs, l.cur, l.asked, l.pubs, l.done, s.holder.value);
  }

  lemma StepIsWorkers<V(!new)>(m: Machine<V>, i: nat, works: nat -> Work<V>)
    requires Sized(m) && i < |m.books.pool.workers|
    requires var w := m.books.pool.workers[i]; w.pc.Body? && m.wpos[i].x < Bound(m.books.pool.jobs, w.pc.job, w.index + 1)
    ensures MachineStep(m, AsWorker(i), works) == WorkerMoved(m, i, works(CallOf(m.books, m.books.pool.workers[i].pc.job)))
  {
  }

  lemma WorkerUnit<V(!new)>(m: Machine<V>, i: nat, p: Plan<V>, mem0: map<nat, V>)
    requires MachineOk(m, p, mem0) && PlanOk(p, m.books.asked) && RaceFree(m.books, p) && i < |m.books.pool.workers|
    requires var w := m.books.pool.workers[i]; w.pc.Body? && m.wpos[i].x < Bound(m.books.pool.jobs, w.pc.job, w.index + 1)
    ensures MachineOk(MachineStep(m, AsWorker(i), p.works), p, mem0)
  {
    StepIsWorkers(m, i, p.works);
    WorkersCall(m, i);
    var acts := SomeActs(m, p, mem0);
    WorkerFlies(m, i, m.books.pool.holder.value, p, mem0, acts, p.works(m.books.cur[m.books.pool.holder.value]));
  }

  lemma SomeActs<V(!new)>(m: Machine<V>, p: Plan<V>, mem0: map<nat, V>) returns (acts: map<nat, Act<V>>)
    requires MachineOk(m, p, mem0) && RaceFree(m.books, p)
    ensures MachineAt(m, p, mem0, acts) && NoRace(p, m.books.asked, acts)
  {
    acts :| MachineAt(m, p, mem0, acts);
    NoneRace(m, p, acts);
  }

  /** The machine after caller `c` took a small step in its own range. */
  function CallerMoved<V(!new)>(m: Machine<V>, c: nat, w: Work<V>): Machine<V>
    requires c < |m.cpos|
  {
    var at := m.cpos[c];
    m.(cpos := m.cpos[c := Next(w.len(at.x), at)], mem := Wrote(w, at, 0, m.mem))
  }

  function CallerAct<V(!new)>(m: Machine<V>, c: nat, w: Work<V>, act: Act<V>): Act<V>
    requires c < |m.cpos| && |act.marks| > 0
  {
    act.(marks := act.marks[0 := Next(w.len(m.cpos[c].x), m.cpos[c])])
  }

  /** Caller `c` is in its own range, at a unit of it. */
  ghost predicate CallerIn<V(!new)>(m: Machine<V>, c: nat)
    requires Sized(m)
  {
    var s, l := m.books.pool, m.books;
    && c < |m.cpos| && l.cur[c] < |l.asked| && 1 <= l.asked[l.cur[c]].chunks <= l.asked[l.cur[c]].total
    && (s.callers[c].Inline? || (s.callers[c].Run? && s.holder == Some(c)))
    && m.cpos[c].x < BoundOf(l.asked[l.cur[c]], 1)
  }

  lemma CallerAdvances<V(!new)>(s: Pool, asked: seq<Job>, p: Plan<V>, wpos: seq<Mark>, pos: Mark, pc: CallerPc, act: Act<V>,
                                w: Work<V>, act': Act<V>)
    requires TakenOk(s) && |wpos| == |s.workers| && (pc.Inline? || (pc.Run? && Holding(s) && s.callers[s.holder.value] == pc))
    requires act.id < |asked| && 1 <= asked[act.id].chunks <= asked[act.id].total && pos.x < BoundOf(asked[act.id], 1)
    requires ActAt(s, asked, p, wpos, pos, pc, act) && w == p.works(act.id)
    requires |act.marks| > 0 && act' == act.(marks := act.marks[0 := Next(w.len(pos.x), pos)])
    ensures ActAt(s, asked, p, wpos, Next(w.len(pos.x), pos), pc, act')
    ensures act.marks[0] == pos && InChunk(asked[act.id], 0, pos.x) && pos.s <= w.len(pos.x)
  {
    var j := asked[act.id];
    assert BoundOf(j, 0) == 0;
    if pc.Inline? { WholeRange(j); }
    ChunkAt(j, 0, pos, w.len);
    NextInside(pos, w.len, 0, BoundOf(j, 1));
  }

  lemma WholeRange(j: Job)
    requires j.chunks == 1
    ensures BoundOf(j, 0) == 0 && BoundOf(j, 1) == j.total
  {
  }

  lemma CallerFliesActs<V(!new)>(m: Machine<V>, c: nat, p: Plan<V>, acts: map<nat, Act<V>>, w: Work<V>)
    requires Inv(m.books.pool) && Sized(m) && ActsAre(m, p, acts) && CallerIn(m, c) && w == p.works(m.books.cur[c])
    ensures c in acts && acts[c].id == m.books.cur[c] && |acts[c].marks| > 0
    ensures Sized(CallerMoved(m, c, w)) && ActsAre(CallerMoved(m, c, w), p, acts[c := CallerAct(m, c, w, acts[c])])
    ensures acts[c].marks[0] == m.cpos[c] && InChunk(m.books.asked[acts[c].id], 0, m.cpos[c].x) && m.cpos[c].s <= w.len(m.cpos[c].x)
  {
    var s := m.books.pool;
    ActOf(m, p, acts, c);
    CallerAdvances(s, m.books.asked, p, m.wpos, m.cpos[c], s.callers[c], acts[c], w, CallerAct(m, c, w, acts[c]));
  }

  lemma CallerFlies<V(!new)>(m: Machine<V>, c: nat, p: Plan<V>, mem0: map<nat, V>, acts: map<nat, Act<V>>, w: Work<V>)
    requires LedgerOk(m.books) && Sized(m) && MachineAt(m, p, mem0, acts) && PlanOk(p, m.books.asked) && NoRace(p, m.books.asked, acts)
    requires CallerIn(m, c) && w == p.works(m.books.cur[c])
    ensures MachineOk(CallerMoved(m, c, w), p, mem0)
  {
    CallerFliesActs(m, c, p, acts, w);
    ActMoves(p, m.books.asked, acts, m.mem, Serially(m.books, p, mem0), c, 0, m.cpos[c], w, CallerAct(m, c, w, acts[c]));
    assert MachineAt(CallerMoved(m, c, w), p, mem0, acts[c := CallerAct(m, c, w, acts[c])]);
  }

  lemma CallersCall<V(!new)>(m: Machine<V>, c: nat)
    requires LedgerOk(m.books) && Sized(m) && c < |m.books.pool.callers|
    requires var pc := m.books.pool.callers[c]; (pc.Run? || pc.Inline?) && m.cpos[c].x < RangeEnd(m.books.pool, pc)
    ensures CallerIn(m, c)
  {
    var s, l := m.books.pool, m.books;
    assert CurOk(s.callers[c], l.cur[c], l.asked, l.pubs);
    if s.callers[c].Run? {
      assert s.holder == Some(c);
      FlightMeans(s);
      FlyingCall(s.callers, s.jobs, l.cur, l.asked, l.pubs, l.done, c);
    } else {
      WholeRange(l.asked[l.cur[c]]);
    }
  }

  lemma StepIsCallers<V(!new)>(m: Machine<V>, c: nat, total: int, grain: int, works: nat -> Work<V>)
    requires Sized(m) && c < |m.books.pool.callers|
    requires var pc := m.books.pool.callers[c]; (pc.Run? || pc.Inline?) && m.cpos[c].x < RangeEnd(m.books.pool, pc)
    ensures MachineStep(m, AsCaller(c, total, grain), works) == CallerMoved(m, c, works(m.books.cur[c]))
  {
  }

  lemma CallerUnit<V(!new)>(m: Machine<V>, c: nat, total: int, grain: int, p: Plan<V>, mem0: map<nat, V>)
    requires MachineOk(m, p, mem0) && PlanOk(p, m.books.asked) && RaceFree(m.books, p) && c < |m.books.pool.callers|
    requires var pc := m.books.pool.callers[c]; (pc.Run? || pc.Inline?) && m.cpos[c].x < RangeEnd(m.books.pool, pc)
    ensures MachineOk(MachineStep(m, AsCaller(c, total, grain), p.works), p, mem0)
  {
    StepIsCallers(m, c, total, grain, p.works);
    CallersCall(m, c);
    var acts := SomeActs(m, p, mem0);
    CallerFlies(m, c, p, mem0, acts, p.works(m.books.cur[c]));
  }

  // ----- the pool moves -----

  /** A running call whose caller and workers stay where they are. */
  lemma ActElsewhere<V(!new)>(s: Pool, s': Pool, asked: seq<Job>, asked': seq<Job>, p: Plan<V>, wpos: seq<Mark>, pos: Mark, pc: CallerPc,
                              act: Act<V>)
    requires TakenOk(s) && TakenOk(s') && |wpos| == |s.workers| && (Flying(pc) ==> Holding(s)) && ActAt(s, asked, p, wpos, pos, pc, act)
    requires asked <= asked' && s'.workers == s.workers && s'.taken == s.taken
    requires Flying(pc) ==> Holding(s') && s'.holder == s.holder && s'.callers[s.holder.value] == s.callers[s.holder.value] && s'.jobs == s.jobs
    ensures ActAt(s', asked', p, wpos, pos, pc, act)
  {
    var j := asked[act.id];
    if Flying(pc) {
      forall k: nat | k < j.chunks ensures Reached(s', wpos, pos, j, k) == Reached(s, wpos, pos, j, k) {}
    }
  }

  /** The call in flight is in the books as the pool's last job. */
  ghost predicate FlightBooked(s: Pool, cur: seq<nat>, asked: seq<Job>) {
    |cur| == |s.callers| && forall c | 0 <= c < |s.callers| && Flying(s.callers[c]) ::
      && s.holder == Some(c) && |s.jobs| > 0 && cur[c] < |asked|
      && asked[cur[c]] == s.jobs[|s.jobs| - 1] && 1 <= asked[cur[c]].chunks <= asked[cur[c]].total
  }

  lemma BookedFlight(l: Ledger)
    requires LedgerOk(l)
    ensures FlightBooked(l.pool, l.cur, l.asked)
  {
    var s := l.pool;
    forall c | 0 <= c < |s.callers| && Flying(s.callers[c])
      ensures s.holder == Some(c) && |s.jobs| > 0 && l.cur[c] < |l.asked|
      ensures l.asked[l.cur[c]] == s.jobs[|s.jobs| - 1] && 1 <= l.asked[l.cur[c]].chunks <= l.asked[l.cur[c]].total
    {
      FlyingCall(s.callers, s.jobs, l.cur, l.asked, l.pubs, l.done, c);
    }
  }

  /** Where worker `i`'s mark is put when it moves without running a unit. */
  function Placed(s: Pool, i: nat, wpos: seq<Mark>): (wpos': seq<Mark>)
    requires i < |s.workers| == |wpos|
    ensures |wpos'| == |wpos|
  {
    if s.workers[i].pc.Enter? then wpos[i := Mark(Bound(s.jobs, s.job, s.workers[i].index), 0)] else wpos
  }

  /** The call in flight stands where it stood. */
  lemma FlightWorker<V(!new)>(s: Pool, s': Pool, i: nat, j: Job, asked: seq<Job>, p: Plan<V>, wpos: seq<Mark>, pos: Mark, pc: CallerPc, act: Act<V>)
    requires Inv(s) && Inv(s') && InFlight(s) && Holding(s') && i < |s.workers| == |wpos| && s' == WorkerStep(s, i) && Flying(pc) && !pc.Inline?
    requires |s.jobs| > 0 && j == s.jobs[|s.jobs| - 1] && 1 <= j.chunks <= j.total && act.id < |asked| && asked[act.id] == j
    requires s.workers[i].pc.Body? ==> wpos[i].x >= BoundOf(j, s.workers[i].index + 1)
    requires ActAt(s, asked, p, wpos, pos, pc, act)
    ensures |s'.workers| == |wpos| && ActAt(s', asked, p, Placed(s, i, wpos), pos, pc, act)
  {
    WorkerMarks(s, i, wpos, Placed(s, i, wpos), pos, j, p.works(act.id).len, act.marks);
    WorkerFrame(s, i);
  }

  /** The machine after worker `i` moved without running a unit. */
  function AfterWorker<V(!new)>(m: Machine<V>, i: nat): Machine<V>
    requires i < |m.books.pool.workers| == |m.wpos|
  {
    m.(books := m.books.(pool := WorkerStep(m.books.pool, i)), wpos := Placed(m.books.pool, i, m.wpos))
  }

  lemma AfterWorkerActs<V(!new)>(m: Machine<V>, i: nat, p: Plan<V>, acts: map<nat, Act<V>>)
    requires Inv(m.books.pool) && FlightBooked(m.books.pool, m.books.cur, m.books.asked) && Sized(m) && ActsAre(m, p, acts)
    requires i < |m.books.pool.workers| && Inv(WorkerStep(m.books.pool, i))
    requires var w := m.books.pool.workers[i]; w.pc.Body? ==> m.wpos[i].x >= Bound(m.books.pool.jobs, w.pc.job, w.index + 1)
    ensures Sized(AfterWorker(m, i)) && ActsAre(AfterWorker(m, i), p, acts)
  {
    var s, m' := m.books.pool, AfterWorker(m, i);
    var s' := m'.books.pool;
    WorkerFrame(s, i);
    forall c: nat | c in acts ensures ActAt(s', m.books.asked, p, m'.wpos, m.cpos[c], s'.callers[c], acts[c]) {
      ActOf(m, p, acts, c);
      AfterWorkerAct(m, i, p, acts[c], c);
    }
  }

  lemma AfterWorkerAct<V(!new)>(m: Machine<V>, i: nat, p: Plan<V>, act: Act<V>, c: nat)
    requires Inv(m.books.pool) && FlightBooked(m.books.pool, m.books.cur, m.books.asked) && Sized(m)
    requires i < |m.books.pool.workers| && Inv(WorkerStep(m.books.pool, i)) && c < |m.cpos| && act.id == m.books.cur[c]
    requires var w := m.books.pool.workers[i]; w.pc.Body? ==> m.wpos[i].x >= Bound(m.books.pool.jobs, w.pc.job, w.index + 1)
    requires Active(m.books.pool.callers[c]) && (Flying(m.books.pool.callers[c]) ==> Holding(m.books.pool))
    requires ActAt(m.books.pool, m.books.asked, p, m.wpos, m.cpos[c], m.books.pool.callers[c], act)
    ensures |WorkerStep(m.books.pool, i).workers| == |m.wpos| && (Flying(m.books.pool.callers[c]) ==> Holding(WorkerStep(m.books.pool, i)))
    ensures ActAt(WorkerStep(m.books.pool, i), m.books.asked, p, Placed(m.books.pool, i, m.wpos), m.cpos[c], m.books.pool.callers[c], act)
  {
    var s, s' := m.books.pool, WorkerStep(m.books.pool, i);
    WorkerFrame(s, i);
    if Flying(s.callers[c]) {
      if s.workers[i].pc.Body? { WorkerOwns(s, i); }
      FlightWorker(s, s', i, s.jobs[|s.jobs| - 1], m.books.asked, p, m.wpos, m.cpos[c], s.callers[c], act);
    }
  }

  lemma WorkerMoves<V(!new)>(m: Machine<V>, i: nat, p: Plan<V>, mem0: map<nat, V>)
    requires MachineOk(m, p, mem0) && i < |m.books.pool.workers|
    requires var w := m.books.pool.workers[i]; w.pc.Body? ==> m.wpos[i].x >= Bound(m.books.pool.jobs, w.pc.job, w.index + 1)
    ensures MachineOk(AfterWorker(m, i), p, mem0)
  {
    LedgerKeeps(m.books, AsWorker(i));
    BookedFlight(m.books);
    var acts: map<nat, Act<V>> :| MachineAt(m, p, mem0, acts);
    AfterWorkerActs(m, i, p, acts);
    SameMemory(m, AfterWorker(m, i), p, mem0, acts);
  }

  /** A step that moves no memory and no call. */
  lemma SameMemory<V(!new)>(m: Machine<V>, m': Machine<V>, p: Plan<V>, mem0: map<nat, V>, acts: map<nat, Act<V>>)
    requires LedgerOk(m.books) && LedgerOk(m'.books) && Sized(m) && Sized(m') && MachineAt(m, p, mem0, acts) && ActsAre(m', p, acts)
    requires m'.mem == m.mem && m'.books.asked == m.books.asked && m'.books.done == m.books.done
    ensures MachineOk(m', p, mem0)
  {
    assert MachineAt(m', p, mem0, acts);
  }

  /** The machine after the destructor moved. */
  function AfterDestructor<V(!new)>(m: Machine<V>): Machine<V> {
    m.(books := m.books.(pool := DestructorStep(m.books.pool)))
  }

  lemma DestructorMoves<V(!new)>(m: Machine<V>, p: Plan<V>, mem0: map<nat, V>)
    requires MachineOk(m, p, mem0)
    ensures MachineOk(AfterDestructor(m), p, mem0)
  {
    LedgerKeeps(m.books, AsDestructor);
    var acts: map<nat, Act<V>> :| MachineAt(m, p, mem0, acts);
    DestructorActs(m, p, acts);
    SameMemory(m, AfterDestructor(m), p, mem0, acts);
  }

  lemma DestructorActs<V(!new)>(m: Machine<V>, p: Plan<V>, acts: map<nat, Act<V>>)
    requires Inv(m.books.pool) && Sized(m) && ActsAre(m, p, acts) && Inv(DestructorStep(m.books.pool))
    ensures Sized(AfterDestructor(m)) && ActsAre(AfterDestructor(m), p, acts)
  {
    var s, s', m' := m.books.pool, DestructorStep(m.books.pool), AfterDestructor(m);
    DestructorFrame(s);
    forall c: nat | c in acts ensures ActAt(s', m.books.asked, p, m.wpos, m.cpos[c], s'.callers[c], acts[c]) {
      ActOf(m, p, acts, c);
      ActElsewhere(s, s', m.books.asked, m.books.asked, p, m.wpos, m.cpos[c], s.callers[c], acts[c]);
    }
  }

  // ----- a caller moves -----

  /** The machine with new books, after a step of caller `c` that runs no unit; `fresh` says
      whether its position and its call's starting memory are set. */
  function AfterCaller<V(!new)>(m: Machine<V>, l: Ledger, c: nat): Machine<V>
    requires Sized(m) && c < |m.cpos|
  {
    var pc := m.books.pool.callers[c];
    m.(books := l, cpos := if pc.Begin? || pc.Out? then m.cpos[c := Mark(0, 0)] else m.cpos,
       base := if pc.Bump? || pc.Out? then m.base[c := m.mem] else m.base)
  }

  /** The other callers' calls stand where they stood. */
  lemma OthersAct<V(!new)>(m: Machine<V>, l: Ledger, p: Plan<V>, acts: map<nat, Act<V>>, c: nat, d: nat)
    requires Inv(m.books.pool) && Inv(l.pool) && Sized(m) && ActsAre(m, p, acts) && c < |m.cpos| && d in acts && d != c
    requires l.pool.workers == m.books.pool.workers && l.pool.taken == m.books.pool.taken
    requires |l.pool.callers| == |m.cpos| && l.pool.callers == m.books.pool.callers[c := l.pool.callers[c]]
    requires |l.cur| == |m.cpos| && l.cur[d] == m.books.cur[d] && m.books.asked <= l.asked
    requires Flying(m.books.pool.callers[d]) ==> l.pool.jobs == m.books.pool.jobs && l.pool.holder == m.books.pool.holder
    ensures var m' := AfterCaller(m, l, c);
            && d < |m'.cpos| && acts[d].id == l.cur[d] && acts[d].base == m'.base[d] && Active(l.pool.callers[d])
            && (Flying(l.pool.callers[d]) ==> Holding(l.pool))
            && ActAt(l.pool, l.asked, p, m'.wpos, m'.cpos[d], l.pool.callers[d], acts[d])
  {
    ActOf(m, p, acts, d);
    ActElsewhere(m.books.pool, l.pool, m.books.asked, l.asked, p, m.wpos, m.cpos[d], m.books.pool.callers[d], acts[d]);
  }

  /** What a caller's step leaves alone: everything but its own place and the pool's own
      words. */
  ghost predicate Leaves(s: Pool, s': Pool, c: nat) {
    && s'.workers == s.workers && s'.taken == s.taken && c < |s.callers| == |s'.callers| && s'.callers == s.callers[c := s'.callers[c]]
    && forall d | 0 <= d < |s.callers| && d != c && Flying(s.callers[d]) :: s'.jobs == s.jobs && s'.holder == s.holder
  }

  lemma CallerLeaves(s: Pool, c: nat, ask: Job)
    requires Inv(s) && c < |s.callers|
    ensures Leaves(s, CallerMove(s, c, ask), c)
  {
    CallerFrame(s, c, ask);
  }

  /** The same running calls, but for caller `c`'s. */
  ghost predicate SameBut<V(!new)>(acts: map<nat, Act<V>>, acts': map<nat, Act<V>>, c: nat) {
    forall d: nat | d != c :: (d in acts' <==> d in acts) && (d in acts' ==> acts'[d] == acts[d])
  }

  /** The running calls after a step of caller `c`. */
  lemma Assemble<V(!new)>(m: Machine<V>, l: Ledger, p: Plan<V>, acts: map<nat, Act<V>>, acts': map<nat, Act<V>>, c: nat)
    requires Inv(m.books.pool) && Inv(l.pool) && Sized(m) && ActsAre(m, p, acts) && Leaves(m.books.pool, l.pool, c)
    requires |l.cur| == |m.cpos| && (forall d | 0 <= d < |l.cur| && d != c :: l.cur[d] == m.books.cur[d]) && m.books.asked <= l.asked
    requires SameBut(acts, acts', c) && (c in acts' <==> Active(l.pool.callers[c])) && (Flying(l.pool.callers[c]) ==> Holding(l.pool))
    requires c in acts' ==>
               && acts'[c].id == l.cur[c] && acts'[c].base == AfterCaller(m, l, c).base[c]
               && ActAt(l.pool, l.asked, p, m.wpos, AfterCaller(m, l, c).cpos[c], l.pool.callers[c], acts'[c])
    ensures Sized(AfterCaller(m, l, c)) && ActsAre(AfterCaller(m, l, c), p, acts')
  {
    var m' := AfterCaller(m, l, c);
    forall d: nat | d in acts' && d != c
      ensures acts'[d].id == l.cur[d] && acts'[d].base == m'.base[d]
      ensures (Flying(l.pool.callers[d]) ==> Holding(l.pool)) && ActAt(l.pool, l.asked, p, m'.wpos, m'.cpos[d], l.pool.callers[d], acts'[d])
    {
      OthersAct(m, l, p, acts, c, d);
    }
  }

  /** A caller asks: if it runs the range itself, its call begins. */
  function AskedActs<V(!new)>(m: Machine<V>, c: nat, j: Job, acts: map<nat, Act<V>>): map<nat, Act<V>> {
    if j.chunks == 1 then acts[c := Act(|m.books.asked|, m.mem, [Mark(0, 0)])] else acts
  }

  ghost predicate AskedBooks(l: Ledger, l': Ledger, c: nat, j: Job) {
    && c < |l.pool.callers| == |l.cur| && l.pool.callers[c].Out? && 1 <= j.chunks <= j.total
    && l'.asked == l.asked + [j] && l'.cur == l.cur[c := |l.asked|] && l'.done == l.done
    && l'.pool == l.pool.(callers := l.pool.callers[c := if j.chunks == 1 then Inline(j) else Lock(j)])
  }

  lemma AskActs<V(!new)>(m: Machine<V>, l: Ledger, p: Plan<V>, acts: map<nat, Act<V>>, c: nat, j: Job)
    requires Inv(m.books.pool) && Inv(l.pool) && Sized(m) && ActsAre(m, p, acts) && AskedBooks(m.books, l, c, j)
    ensures c !in acts && Sized(AfterCaller(m, l, c)) && ActsAre(AfterCaller(m, l, c), p, AskedActs(m, c, j, acts))
  {
    Assemble(m, l, p, acts, AskedActs(m, c, j, acts), c);
  }

  lemma AskMemory<V(!new)>(l: Ledger, l': Ledger, p: Plan<V>, acts: map<nat, Act<V>>, acts': map<nat, Act<V>>, mem: map<nat, V>,
                           mem0: map<nat, V>, c: nat, j: Job)
    requires LedgerOk(l) && LedgerOk(l') && MemOk(p, l.asked, acts, mem, Serially(l, p, mem0)) && c !in acts && AskedBooks(l, l', c, j)
    requires acts' == (if j.chunks == 1 then acts[c := Act(|l.asked|, mem, [Mark(0, 0)])] else acts)
    requires PlanOk(p, l'.asked) && Known(l'.asked, acts') && NoRace(p, l'.asked, acts')
    ensures MemOk(p, l'.asked, acts', mem, Serially(l', p, mem0))
  {
    MoreKnown(p, l.asked, j, acts, mem, Serially(l, p, mem0));
    MoreAsked(p, l.asked, j, l.done, mem0);
    if j.chunks == 1 {
      WholeRange(j);
      CallMemory.CallStarts(p, l'.asked, acts, mem, Serially(l, p, mem0), c, |l.asked|, [Mark(0, 0)]);
    }
  }

  lemma KnownMore<V(!new)>(asked: seq<Job>, j: Job, acts: map<nat, Act<V>>, c: nat, act: Act<V>)
    requires Known(asked, acts) && 1 <= j.chunks <= j.total && act.id == |asked|
    ensures Known(asked + [j], acts) && Known(asked + [j], acts[c := act])
  {
  }

  lemma AskFlies<V(!new)>(m: Machine<V>, l: Ledger, p: Plan<V>, mem0: map<nat, V>, c: nat, j: Job, acts: map<nat, Act<V>>)
    requires LedgerOk(m.books) && LedgerOk(l) && Sized(m) && MachineAt(m, p, mem0, acts) && AskedBooks(m.books, l, c, j)
    requires PlanOk(p, l.asked) && Known(l.asked, AskedActs(m, c, j, acts)) && NoRace(p, l.asked, AskedActs(m, c, j, acts))
    ensures MachineOk(AfterCaller(m, l, c), p, mem0)
  {
    AskActs(m, l, p, acts, c, j);
    AskMemory(m.books, l, p, acts, AskedActs(m, c, j, acts), m.mem, mem0, c, j);
    assert MachineAt(AfterCaller(m, l, c), p, mem0, AskedActs(m, c, j, acts));
  }

  lemma AskApart<V(!new)>(m: Machine<V>, l: Ledger, p: Plan<V>, c: nat, j: Job, acts: map<nat, Act<V>>)
    requires Inv(m.books.pool) && Inv(l.pool) && Sized(m) && ActsAre(m, p, acts) && Known(m.books.asked, acts) && AskedBooks(m.books, l, c, j)
    requires RaceFree(l, p)
    ensures Known(l.asked, AskedActs(m, c, j, acts)) && NoRace(p, l.asked, AskedActs(m, c, j, acts))
  {
    AskActs(m, l, p, acts, c, j);
    KnownMore(m.books.asked, j, acts, c, Act(|m.books.asked|, m.mem, [Mark(0, 0)]));
    NoneRace(AfterCaller(m, l, c), p, AskedActs(m, c, j, acts));
  }

  lemma AskKeeps<V(!new)>(m: Machine<V>, l: Ledger, p: Plan<V>, mem0: map<nat, V>, c: nat, j: Job)
    requires MachineOk(m, p, mem0) && LedgerOk(l) && AskedBooks(m.books, l, c, j) && PlanOk(p, l.asked) && RaceFree(l, p)
    ensures MachineOk(AfterCaller(m, l, c), p, mem0)
  {
    var acts: map<nat, Act<V>> :| MachineAt(m, p, mem0, acts);
    AskApart(m, l, p, c, j, acts);
    AskFlies(m, l, p, mem0, c, j, acts);
  }

  // ----- a call goes to the pool -----

  ghost predicate PublishedBooks(l: Ledger, l': Ledger, c: nat, ask: Job) {
    && c < |l.pool.callers| == |l.cur| && l.pool.callers[c].Bump? && Asked(l.pool, ask)
    && l'.asked == l.asked && l'.cur == l.cur && l'.done == l.done && l'.pool == CallerMove(l.pool, c, ask)
    && l.cur[c] < |l.asked| && l.asked[l.cur[c]] == l.pool.callers[c].j && 1 <= l.pool.callers[c].j.chunks <= l.pool.callers[c].j.total
  }

  lemma PublishActs<V(!new)>(m: Machine<V>, l: Ledger, p: Plan<V>, acts: map<nat, Act<V>>, c: nat, ask: Job) returns (act: Act<V>)
    requires Inv(m.books.pool) && Inv(l.pool) && Sized(m) && ActsAre(m, p, acts) && PublishedBooks(m.books, l, c, ask)
    ensures var j := m.books.asked[m.books.cur[c]];
            && act == Act(m.books.cur[c], m.mem, act.marks) && |act.marks| == j.chunks
            && (forall k: nat | k < j.chunks :: act.marks[k] == Mark(BoundOf(j, k), 0))
    ensures c !in acts && Sized(AfterCaller(m, l, c)) && ActsAre(AfterCaller(m, l, c), p, acts[c := act])
  {
    var id := m.books.cur[c];
    var marks := CallBegins(m.books.pool, c, ask, m.wpos, m.cpos[c], p.works(id).len);
    act := Act(id, m.mem, marks);
    CallerLeaves(m.books.pool, c, ask);
    assert l.pool.callers[c] == Begin;
    Assemble(m, l, p, acts, acts[c := act], c);
  }

  lemma PublishFlies<V(!new)>(m: Machine<V>, l: Ledger, p: Plan<V>, mem0: map<nat, V>, c: nat, acts: map<nat, Act<V>>, act: Act<V>)
    requires LedgerOk(m.books) && LedgerOk(l) && Sized(m) && MachineAt(m, p, mem0, acts) && c < |m.cpos| && c !in acts
    requires l.asked == m.books.asked && l.done == m.books.done && PlanOk(p, l.asked) && act.id < |l.asked| && act.base == m.mem
    requires var j := l.asked[act.id];
             && 1 <= j.chunks <= j.total && |act.marks| == j.chunks
             && forall k: nat | k < j.chunks :: act.marks[k] == Mark(BoundOf(j, k), 0)
    requires Known(l.asked, acts[c := act]) && NoRace(p, l.asked, acts[c := act])
    requires Sized(AfterCaller(m, l, c)) && ActsAre(AfterCaller(m, l, c), p, acts[c := act])
    ensures MachineOk(AfterCaller(m, l, c), p, mem0)
  {
    CallMemory.CallStarts(p, l.asked, acts, m.mem, Serially(l, p, mem0), c, act.id, act.marks);
    assert MachineAt(AfterCaller(m, l, c), p, mem0, acts[c := act]);
  }

  lemma PublishKeeps<V(!new)>(m: Machine<V>, l: Ledger, p: Plan<V>, mem0: map<nat, V>, c: nat, ask: Job)
    requires MachineOk(m, p, mem0) && LedgerOk(l) && PublishedBooks(m.books, l, c, ask) && PlanOk(p, l.asked) && RaceFree(l, p)
    ensures MachineOk(AfterCaller(m, l, c), p, mem0)
  {
    var acts: map<nat, Act<V>> :| MachineAt(m, p, mem0, acts);
    var act := PublishApart(m, l, p, acts, c, ask);
    PublishFlies(m, l, p, mem0, c, acts, act);
  }

  lemma PublishApart<V(!new)>(m: Machine<V>, l: Ledger, p: Plan<V>, acts: map<nat, Act<V>>, c: nat, ask: Job) returns (act: Act<V>)
    requires Inv(m.books.pool) && Inv(l.pool) && Sized(m) && ActsAre(m, p, acts) && Known(m.books.asked, acts)
    requires PublishedBooks(m.books, l, c, ask) && RaceFree(l, p)
    ensures var j := m.books.asked[m.books.cur[c]];
            && act == Act(m.books.cur[c], m.mem, act.marks) && |act.marks| == j.chunks
            && (forall k: nat | k < j.chunks :: act.marks[k] == Mark(BoundOf(j, k), 0))
    ensures c !in acts && Sized(AfterCaller(m, l, c)) && ActsAre(AfterCaller(m, l, c), p, acts[c := act])
    ensures Known(l.asked, acts[c := act]) && NoRace(p, l.asked, acts[c := act])
  {
    act := PublishActs(m, l, p, acts, c, ask);
    NoneRace(AfterCaller(m, l, c), p, acts[c := act]);
  }

  // ----- a call is over -----

  ghost predicate FinishedBooks(l: Ledger, l': Ledger, c: nat, ask: Job) {
    && c < |l.pool.callers| == |l.cur| && Asked(l.pool, ask)
    && (l.pool.callers[c].Inline? || (l.pool.callers[c].Barrier? && l.pool.arrived == l.pool.left))
    && l'.asked == l.asked && l'.cur == l.cur && l'.done == l.done + [l.cur[c]] && l'.pool == CallerMove(l.pool, c, ask)
  }

  lemma FinishActs<V(!new)>(m: Machine<V>, l: Ledger, p: Plan<V>, acts: map<nat, Act<V>>, c: nat, ask: Job)
    requires Inv(m.books.pool) && Inv(l.pool) && Sized(m) && ActsAre(m, p, acts) && FinishedBooks(m.books, l, c, ask)
    ensures Sized(AfterCaller(m, l, c)) && ActsAre(AfterCaller(m, l, c), p, acts - {c})
  {
    CallerLeaves(m.books.pool, c, ask);
    Assemble(m, l, p, acts, acts - {c}, c);
  }

  /** Every chunk of a call that is over is at its end. */
  lemma FinishedMarks<V(!new)>(m: Machine<V>, p: Plan<V>, acts: map<nat, Act<V>>, c: nat)
    requires Inv(m.books.pool) && FlightBooked(m.books.pool, m.books.cur, m.books.asked) && Sized(m) && ActsAre(m, p, acts)
    requires c < |m.cpos| && Known(m.books.asked, acts)
    requires var s, pc := m.books.pool, m.books.pool.callers[c];
             || (pc.Barrier? && s.arrived == s.left)
             || (pc.Inline? && m.books.cur[c] < |m.books.asked| && m.cpos[c].x >= m.books.asked[m.books.cur[c]].total)
    ensures c in acts && acts[c].id == m.books.cur[c]
    ensures var j := m.books.asked[acts[c].id]; |acts[c].marks| == j.chunks && forall k: nat | k < j.chunks :: acts[c].marks[k] == Mark(BoundOf(j, k + 1), 0)
  {
    ActOf(m, p, acts, c);
    var s, j := m.books.pool, m.books.asked[acts[c].id];
    if s.callers[c].Inline? {
      WholeRange(j);
    } else {
      forall k: nat | k < j.chunks ensures acts[c].marks[k] == Mark(BoundOf(j, k + 1), 0) {
        AllAtEnd(s, m.wpos, m.cpos[c], j, k);
      }
    }
  }

  lemma FinishMemory<V(!new)>(l: Ledger, l': Ledger, p: Plan<V>, acts: map<nat, Act<V>>, mem: map<nat, V>, mem0: map<nat, V>, c: nat)
    requires LedgerOk(l) && LedgerOk(l') && MemOk(p, l.asked, acts, mem, Serially(l, p, mem0)) && c in acts && c < |l.cur|
    requires l'.asked == l.asked && l'.done == l.done + [l.cur[c]] && acts[c].id == l.cur[c] && PlanOk(p, l.asked) && NoRace(p, l.asked, acts)
    requires var j := l.asked[acts[c].id]; forall k: nat | k < j.chunks :: acts[c].marks[k] == Mark(BoundOf(j, k + 1), 0)
    ensures MemOk(p, l'.asked, acts - {c}, mem, Serially(l', p, mem0))
  {
    CallStops(p, l.asked, acts, mem, Serially(l, p, mem0), c);
    OneMoreRun(p, l.asked, l.done, l.cur[c], mem0);
  }

  lemma OneMoreRun<V(!new)>(p: Plan<V>, asked: seq<Job>, done: seq<nat>, id: nat, mem: map<nat, V>)
    requires id < |asked| && forall i | i in done :: i < |asked|
    ensures forall i | i in done + [id] :: i < |asked|
    ensures SerialRuns(p, asked, done + [id], mem) == Units(p.works(id), 0, asked[id].total, 0, SerialRuns(p, asked, done, mem))
  {
    assert (done + [id])[..|done|] == done;
  }

  lemma FinishFlies<V(!new)>(m: Machine<V>, l: Ledger, p: Plan<V>, mem0: map<nat, V>, c: nat, ask: Job, acts: map<nat, Act<V>>)
    requires LedgerOk(m.books) && LedgerOk(l) && Sized(m) && MachineAt(m, p, mem0, acts) && FinishedBooks(m.books, l, c, ask)
    requires FlightBooked(m.books.pool, m.books.cur, m.books.asked) && PlanOk(p, l.asked) && NoRace(p, m.books.asked, acts)
    requires m.books.pool.callers[c].Inline? ==> m.books.cur[c] < |m.books.asked| && m.cpos[c].x >= m.books.asked[m.books.cur[c]].total
    ensures MachineOk(AfterCaller(m, l, c), p, mem0)
  {
    FinishedMarks(m, p, acts, c);
    FinishActs(m, l, p, acts, c, ask);
    FinishMemory(m.books, l, p, acts, m.mem, mem0, c);
    assert MachineAt(AfterCaller(m, l, c), p, mem0, acts - {c});
  }

  lemma FinishKeeps<V(!new)>(m: Machine<V>, l: Ledger, p: Plan<V>, mem0: map<nat, V>, c: nat, ask: Job)
    requires MachineOk(m, p, mem0) && LedgerOk(l) && FinishedBooks(m.books, l, c, ask) && PlanOk(p, l.asked) && RaceFree(m.books, p)
    requires m.books.pool.callers[c].Inline? ==> m.cpos[c].x >= m.books.pool.callers[c].j.total
    ensures MachineOk(AfterCaller(m, l, c), p, mem0)
  {
    BookedFlight(m.books);
    assert CurOk(m.books.pool.callers[c], m.books.cur[c], m.books.asked, m.books.pubs);
    var acts := SomeActs(m, p, mem0);
    FinishFlies(m, l, p, mem0, c, ask, acts);
  }

  // ----- a caller goes on -----

  ghost predicate SameBooks(l: Ledger, l': Ledger, c: nat, ask: Job) {
    && c < |l.pool.callers| == |l.cur| && Asked(l.pool, ask)
    && !l.pool.callers[c].Out? && !l.pool.callers[c].Bump? && !l.pool.callers[c].Inline?
    && !(l.pool.callers[c].Barrier? && l.pool.arrived == l.pool.left)
    && l'.asked == l.asked && l'.cur == l.cur && l'.done == l.done && l'.pool == CallerMove(l.pool, c, ask)
  }

  lemma GoActs<V(!new)>(m: Machine<V>, l: Ledger, p: Plan<V>, acts: map<nat, Act<V>>, c: nat, ask: Job)
    requires Inv(m.books.pool) && Inv(l.pool) && Sized(m) && ActsAre(m, p, acts) && SameBooks(m.books, l, c, ask)
    requires FlightBooked(m.books.pool, m.books.cur, m.books.asked)
    requires m.books.pool.callers[c].Run? ==> m.cpos[c].x >= BoundOf(m.books.asked[m.books.cur[c]], 1)
    ensures Sized(AfterCaller(m, l, c)) && ActsAre(AfterCaller(m, l, c), p, acts)
  {
    CallerLeaves(m.books.pool, c, ask);
    if Flying(m.books.pool.callers[c]) {
      ActOf(m, p, acts, c);
      GoFlying(m, l, p, c, ask, acts[c]);
    }
    Assemble(m, l, p, acts, acts, c);
  }

  lemma GoFlying<V(!new)>(m: Machine<V>, l: Ledger, p: Plan<V>, c: nat, ask: Job, act: Act<V>)
    requires Inv(m.books.pool) && Inv(l.pool) && Sized(m) && SameBooks(m.books, l, c, ask) && Flying(m.books.pool.callers[c])
    requires FlightBooked(m.books.pool, m.books.cur, m.books.asked) && act.id == m.books.cur[c]
    requires m.books.pool.callers[c].Run? ==> m.cpos[c].x >= BoundOf(m.books.asked[m.books.cur[c]], 1)
    requires ActAt(m.books.pool, m.books.asked, p, m.wpos, m.cpos[c], m.books.pool.callers[c], act)
    ensures Flying(l.pool.callers[c]) && Holding(l.pool)
    ensures c < |AfterCaller(m, l, c).cpos| && ActAt(l.pool, l.asked, p, m.wpos, AfterCaller(m, l, c).cpos[c], l.pool.callers[c], act)
  {
    CallerMarks(m.books.pool, c, ask, m.wpos, m.cpos[c], AfterCaller(m, l, c).cpos[c], m.books.asked[act.id], p.works(act.id).len, act.marks);
  }

  lemma GoKeeps<V(!new)>(m: Machine<V>, l: Ledger, p: Plan<V>, mem0: map<nat, V>, c: nat, ask: Job)
    requires MachineOk(m, p, mem0) && LedgerOk(l) && SameBooks(m.books, l, c, ask)
    requires m.books.pool.callers[c].Run? ==> m.cpos[c].x >= Bound(m.books.pool.jobs, m.books.pool.job, 1)
    ensures MachineOk(AfterCaller(m, l, c), p, mem0)
  {
    BookedFlight(m.books);
    if m.books.pool.callers[c].Run? {
      assert m.books.pool.holder == Some(c);
      FlightMeans(m.books.pool);
    }
    var acts: map<nat, Act<V>> :| MachineAt(m, p, mem0, acts);
    GoActs(m, l, p, acts, c, ask);
    SameMemory(m, AfterCaller(m, l, c), p, mem0, acts);
  }

  /** A caller outside with nothing to ask for. */
  lemma IdleKeeps<V(!new)>(m: Machine<V>, p: Plan<V>, mem0: map<nat, V>, c: nat)
    requires MachineOk(m, p, mem0) && c < |m.cpos| && m.books.pool.callers[c].Out?
    ensures MachineOk(AfterCaller(m, m.books, c), p, mem0)
  {
    var acts: map<nat, Act<V>> :| MachineAt(m, p, mem0, acts);
    IdleActs(m, p, acts, c);
    SameMemory(m, AfterCaller(m, m.books, c), p, mem0, acts);
  }

  lemma IdleActs<V(!new)>(m: Machine<V>, p: Plan<V>, acts: map<nat, Act<V>>, c: nat)
    requires Inv(m.books.pool) && Sized(m) && ActsAre(m, p, acts) && c < |m.cpos| && m.books.pool.callers[c].Out?
    ensures Sized(AfterCaller(m, m.books, c)) && ActsAre(AfterCaller(m, m.books, c), p, acts)
  {
    Assemble(m, m.books, p, acts, acts, c);
  }

  // ----- every step -----

  /** What the books say of a step of caller `c`. */
  lemma BooksOf(l: Ledger, c: nat, total: int, grain: int)
    requires LedgerOk(l) && c < |l.pool.callers|
    ensures var t, l', pc := AsCaller(c, total, grain), LedgerStep(l, AsCaller(c, total, grain)), l.pool.callers[c];
            var ask := Wanted(l.pool, t);
            && LedgerOk(l')
            && (pc.Out? && !Asks(l.pool, t) ==> l' == l)
            && (Asks(l.pool, t) ==> AskedBooks(l, l', c, ask))
            && (pc.Bump? ==> PublishedBooks(l, l', c, ask))
            && (pc.Inline? || (pc.Barrier? && l.pool.arrived == l.pool.left) ==> FinishedBooks(l, l', c, ask))
            && (!pc.Out? && !pc.Bump? && !pc.Inline? && !(pc.Barrier? && l.pool.arrived == l.pool.left) ==> SameBooks(l, l', c, ask))
  {
    var t := AsCaller(c, total, grain);
    LedgerKeeps(l, t);
    assert CurOk(l.pool.callers[c], l.cur[c], l.asked, l.pubs);
    if Asks(l.pool, t) { AskMoves(l.pool, c, total, grain); }
  }

  lemma StepIsBooks<V(!new)>(m: Machine<V>, c: nat, total: int, grain: int, works: nat -> Work<V>)
    requires Sized(m) && c < |m.books.pool.callers|
    requires var pc := m.books.pool.callers[c]; !((pc.Run? || pc.Inline?) && m.cpos[c].x < RangeEnd(m.books.pool, pc))
    ensures MachineStep(m, AsCaller(c, total, grain), works) == AfterCaller(m, LedgerStep(m.books, AsCaller(c, total, grain)), c)
  {
  }

  lemma CallerMoves<V(!new)>(m: Machine<V>, c: nat, total: int, grain: int, p: Plan<V>, mem0: map<nat, V>, l: Ledger)
    requires MachineOk(m, p, mem0) && c < |m.books.pool.callers| && l == LedgerStep(m.books, AsCaller(c, total, grain))
    requires PlanOk(p, l.asked) && RaceFree(m.books, p) && RaceFree(l, p)
    requires var pc := m.books.pool.callers[c]; !((pc.Run? || pc.Inline?) && m.cpos[c].x < RangeEnd(m.books.pool, pc))
    ensures MachineOk(AfterCaller(m, l, c), p, mem0)
  {
    var pc, t := m.books.pool.callers[c], AsCaller(c, total, grain);
    BooksOf(m.books, c, total, grain);
    if Asks(m.books.pool, t) {
      AskKeeps(m, l, p, mem0, c, Wanted(m.books.pool, t));
    } else if pc.Out? {
      IdleKeeps(m, p, mem0, c);
    } else if pc.Bump? {
      PublishKeeps(m, l, p, mem0, c, Wanted(m.books.pool, t));
    } else if pc.Inline? || (pc.Barrier? && m.books.pool.arrived == m.books.pool.left) {
      FinishKeeps(m, l, p, mem0, c, Wanted(m.books.pool, t));
    } else {
      GoKeeps(m, l, p, mem0, c, Wanted(m.books.pool, t));
    }
  }

  lemma StepIsOther<V(!new)>(m: Machine<V>, i: nat, works: nat -> Work<V>)
    requires Sized(m) && (i < |m.books.pool.workers| ==>
                            var w := m.books.pool.workers[i]; !(w.pc.Body? && m.wpos[i].x < Bound(m.books.pool.jobs, w.pc.job, w.index + 1)))
    ensures i < |m.books.pool.workers| ==> MachineStep(m, AsWorker(i), works) == AfterWorker(m, i)
    ensures MachineStep(m, AsDestructor, works) == AfterDestructor(m)
  {
  }

  /** Every step of the machine keeps the invariant. */
  lemma MachineKeeps<V(!new)>(m: Machine<V>, t: Thread, m': Machine<V>, p: Plan<V>, mem0: map<nat, V>)
    requires MachineOk(m, p, mem0) && MachineMoves(m, t, m', p.works)
    requires PlanOk(p, m.books.asked) && PlanOk(p, m'.books.asked) && RaceFree(m.books, p) && RaceFree(m'.books, p)
    ensures MachineOk(m', p, mem0)
  {
    match t
    case AsWorker(i) =>
      var w := m.books.pool.workers[i];
      if w.pc.Body? && m.wpos[i].x < Bound(m.books.pool.jobs, w.pc.job, w.index + 1) {
        WorkerUnit(m, i, p, mem0);
      } else {
        StepIsOther(m, i, p.works);
        WorkerMoves(m, i, p, mem0);
      }
    case AsCaller(c, total, grain) =>
      var pc := m.books.pool.callers[c];
      if (pc.Run? || pc.Inline?) && m.cpos[c].x < RangeEnd(m.books.pool, pc) {
        CallerUnit(m, c, total, grain, p, mem0);
      } else {
        StepIsBooks(m, c, total, grain, p.works);
        CallerMoves(m, c, total, grain, p, mem0, LedgerStep(m.books, t));
      }
    case AsDestructor =>
      StepIsOther(m, |m.books.pool.workers|, p.works);
      DestructorMoves(m, p, mem0);
  }

  ghost predicate MachineMoves<V(!new)>(m: Machine<V>, t: Thread, m': Machine<V>, works: nat -> Work<V>) {
    Present(m.books.pool, t) && Sized(m) && m' == MachineStep(m, t, works)
  }

  // ----- every run -----

  ghost predicate MachineStarts<V(!new)>(m: Machine<V>) {
    && Sized(m) && Init(m.books.pool) && m.books.asked == [] && m.books.pubs == [] && m.books.done == []
  }

  ghost predicate IsMachineRun<V(!new)>(run: seq<Machine<V>>, who: seq<Thread>, works: nat -> Work<V>) {
    && |run| == |who| + 1 && MachineStarts(run[0])
    && forall n | 0 <= n < |who| :: MachineMoves(run[n], who[n], run[n + 1], works)
  }

  /** At no moment do two running calls race, and each call keeps to its cells. */
  ghost predicate CallsKeep<V(!new)>(run: seq<Machine<V>>, p: Plan<V>) {
    forall n | 0 <= n < |run| :: RaceFree(run[n].books, p) && PlanOk(p, run[n].books.asked)
  }

  lemma MachineBegins<V(!new)>(m: Machine<V>, p: Plan<V>)
    requires MachineStarts(m)
    ensures MachineOk(m, p, m.mem)
  {
    LedgerStarts(m.books);
    assert forall c | 0 <= c < |m.books.pool.callers| :: m.books.pool.callers[c] == Out;
    var acts: map<nat, Act<V>> := map[];
    assert ActsAre(m, p, acts);
    assert MachineAt(m, p, m.mem, acts);
  }

  lemma {:induction false} Onwards(ok: seq<bool>, n: nat)
    requires n < |ok| && ok[0] && forall k: nat, e: nat | e < |ok| && e == k + 1 && ok[k] :: ok[e]
    ensures ok[n]
  {
    if n > 0 { Onwards(ok, n - 1); }
  }

  lemma RunKeeps<V(!new)>(run: seq<Machine<V>>, who: seq<Thread>, p: Plan<V>, n: nat)
    requires IsMachineRun(run, who, p.works) && CallsKeep(run, p) && n <= |who|
    ensures MachineOk(run[n], p, run[0].mem)
  {
    ghost var ok := seq(|run|, (k: nat) requires k < |run| => MachineOk(run[k], p, run[0].mem));
    MachineBegins(run[0], p);
    forall k: nat, e: nat | e < |ok| && e == k + 1 && ok[k] ensures ok[e] {
      MachineKeeps(run[k], who[k], run[e], p, run[0].mem);
    }
    Onwards(ok, n);
  }

  /** The units that the turns up to `n` ask for, read off the schedule. */
  ghost function AskedBy<V(!new)>(run: seq<Machine<V>>, who: seq<Thread>, n: nat): seq<Job>
    requires n <= |who| <= |run|
  {
    if n == 0 then [] else AskedBy(run, who, n - 1) + NewCall(run[n - 1].books.pool, who[n - 1])
  }

  lemma {:induction false} AskedAll<V(!new)>(run: seq<Machine<V>>, who: seq<Thread>, asked: seq<seq<Job>>, n: nat)
    requires n <= |who| && |run| == |asked| == |who| + 1 && asked[0] == []
    requires forall k: nat, e: nat | k < |who| && e == k + 1 :: asked[e] == asked[k] + NewCall(run[k].books.pool, who[k])
    ensures asked[n] == AskedBy(run, who, n)
  {
    if n > 0 { AskedAll(run, who, asked, n - 1); }
  }

  lemma BooksAgree<V(!new)>(run: seq<Machine<V>>, who: seq<Thread>, works: nat -> Work<V>)
    requires IsMachineRun(run, who, works)
    ensures run[|who|].books.asked == AskedBy(run, who, |who|)
  {
    var asked := seq(|run|, (k: nat) requires k < |run| => run[k].books.asked);
    forall k: nat, e: nat | k < |who| && e == k + 1 ensures asked[e] == asked[k] + NewCall(run[k].books.pool, who[k]) {
      AskedOne(run[k], who[k], run[e], works);
    }
    AskedAll(run, who, asked, |who|);
  }

  lemma AskedOne<V(!new)>(m: Machine<V>, t: Thread, m': Machine<V>, works: nat -> Work<V>)
    requires MachineMoves(m, t, m', works)
    ensures m'.books.asked == m.books.asked + NewCall(m.books.pool, t)
  {
  }

  /** Main result: in every run in which calls that overlap do not race, whenever no caller
      is inside a call, every call that the schedule asked for is over exactly once, and
      memory outside scratch is what the serial loops of those calls leave, one after
      another. */
  lemma PoolRunsSerially<V(!new)>(run: seq<Machine<V>>, who: seq<Thread>, p: Plan<V>)
    requires IsMachineRun(run, who, p.works) && CallsKeep(run, p)
    requires var s := run[|who|].books.pool; forall c | 0 <= c < |s.callers| :: !Busy(s.callers[c])
    ensures var l := run[|who|].books;
            && l.asked == AskedBy(run, who, |who|) && Distinct(l.done) && (forall id: nat :: id in l.done <==> id < |l.asked|)
            && (forall id | id in l.done :: id < |l.asked|)
            && forall a: nat | !AnyScratch(p, a) :: SameAt(a, run[|who|].mem, SerialRuns(p, l.asked, l.done, run[0].mem))
  {
    RunKeeps(run, who, p, |who|);
    BooksAgree(run, who, p.works);
    AllDone(run[|who|], p, run[0].mem);
  }

  lemma AllDone<V(!new)>(m: Machine<V>, p: Plan<V>, mem0: map<nat, V>)
    requires MachineOk(m, p, mem0) && forall c | 0 <= c < |m.books.pool.callers| :: !Busy(m.books.pool.callers[c])
    ensures Distinct(m.books.done) && (forall id: nat :: id in m.books.done <==> id < |m.books.asked|)
    ensures forall a: nat | !AnyScratch(p, a) :: SameAt(a, m.mem, Serially(m.books, p, mem0))
  {
    AllOver(m.books);
    var acts: map<nat, Act<V>> :| MachineAt(m, p, mem0, acts);
    NoneActive(m, p, acts);
    NothingRuns(p, m.books.asked, m.mem, Serially(m.books, p, mem0));
  }

  lemma NoneActive<V(!new)>(m: Machine<V>, p: Plan<V>, acts: map<nat, Act<V>>)
    requires Inv(m.books.pool) && Sized(m) && ActsAre(m, p, acts)
    requires forall c | 0 <= c < |m.books.pool.callers| :: !Busy(m.books.pool.callers[c])
    ensures acts == map[]
  {
    assert forall c: nat :: c !in acts;
  }
}
