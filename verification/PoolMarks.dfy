/** Where the chunks of the call in flight stand, read off the pool and the threads'
    positions. */
module PoolMarks {
  import opened Partition
  import opened SpinPool
  import opened ChunkMemory

  /** The `k`-th bound of call number `g`. */
  function Bound(jobs: seq<Job>, g: nat, k: nat): nat {
    if 1 <= g <= |jobs| && jobs[g - 1].chunks >= 1 then BoundOf(jobs[g - 1], k) else 0
  }

  /** The mark and the memory after one small step of chunk `k`: a step of the unit, or on
      to the next unit. */
  function Next(len: nat, at: Mark): Mark {
    if at.s < len then Mark(at.x, at.s + 1) else Mark(at.x + 1, 0)
  }

  function Wrote<V(!new)>(w: Work<V>, at: Mark, k: nat, mem: map<nat, V>): map<nat, V> {
    if at.s < w.len(at.x) then mem + w.act(at.x, k, at.s, mem) else mem
  }

  /** Where the chunk of a worker stands in call `g`. */
  function WorkerReached(w: Worker, pos: Mark, g: nat, lo: nat, hi: nat): Mark {
    if w.lap == g && w.pc.Body? then pos else Mark(if Left(w, g) then hi else lo, 0)
  }

  function CallerReached(pc: CallerPc, pos: Mark, hi: nat): Mark {
    if pc.Begin? then Mark(0, 0) else if pc.Run? then pos else Mark(hi, 0)
  }

  /** Where chunk `k` of the call in flight stands. */
  ghost function Reached(s: Pool, wpos: seq<Mark>, cpos: Mark, j: Job, k: nat): Mark
    requires Holding(s) && TakenOk(s) && |wpos| == |s.workers| && j.chunks >= 1
  {
    var lo, hi := BoundOf(j, k), BoundOf(j, k + 1);
    if k == 0 then CallerReached(s.callers[s.holder.value], cpos, hi)
    else if k > |s.taken| then Mark(lo, 0)
    else WorkerReached(s.workers[s.taken[k - 1]], wpos[s.taken[k - 1]], |s.jobs|, lo, hi)
  }

  /** `marks` lists where the chunks stand. */
  ghost predicate MarksAre(s: Pool, wpos: seq<Mark>, cpos: Mark, j: Job, marks: seq<Mark>)
    requires Holding(s) && TakenOk(s) && |wpos| == |s.workers| && j.chunks >= 1
  {
    |marks| == j.chunks && forall k: nat | k < j.chunks :: marks[k] == Reached(s, wpos, cpos, j, k)
  }

  /** Inside a unit of the range, or at its end. */
  ghost predicate Inside(at: Mark, len: nat -> nat, lo: nat, hi: nat) {
    lo <= at.x <= hi && if at.x < hi then at.s <= len(at.x) else at.s == 0
  }

  /** A thread inside a body is inside its range. */
  ghost predicate PosOk(s: Pool, wpos: seq<Mark>, cpos: Mark, j: Job, len: nat -> nat)
    requires Holding(s) && |wpos| == |s.workers| && j.chunks >= 1
  {
    && (forall i | 0 <= i < |s.workers| && s.workers[i].pc.Body? ::
          Inside(wpos[i], len, BoundOf(j, s.workers[i].index), BoundOf(j, s.workers[i].index + 1)))
    && (s.callers[s.holder.value].Run? ==> Inside(cpos, len, 0, BoundOf(j, 1)))
  }

  // ----- a thread takes a small step -----

  lemma NextInside(at: Mark, len: nat -> nat, lo: nat, hi: nat)
    requires Inside(at, len, lo, hi) && at.x < hi
    ensures Inside(Next(len(at.x), at), len, lo, hi)
  {
  }

  lemma WorkerOwns(s: Pool, i: nat)
    requires Inv(s) && i < |s.workers| && s.workers[i].pc.Body?
    ensures InFlight(s) && s.workers[i].pc.job == s.workers[i].lap == |s.jobs| == s.job
    ensures var k := s.workers[i].index; 1 <= k <= |s.taken| && k < s.jobs[|s.jobs| - 1].chunks && s.taken[k - 1] == i
  {
    assert PlaceOk(s, i) && IndexOk(s, i);
  }

  /** Only the mark of worker `i` moves. */
  lemma WorkerMarksMove(s: Pool, i: nat, wpos: seq<Mark>, cpos: Mark, at': Mark, j: Job, marks: seq<Mark>)
    requires Inv(s) && i < |s.workers| && s.workers[i].pc.Body? && |wpos| == |s.workers| && Holding(s) && j.chunks >= 1
    requires |s.jobs| > 0 && j == s.jobs[|s.jobs| - 1] && MarksAre(s, wpos, cpos, j, marks)
    ensures var k := s.workers[i].index;
            k < j.chunks && marks[k] == wpos[i] && MarksAre(s, wpos[i := at'], cpos, j, marks[k := at'])
  {
    WorkerOwns(s, i);
    var k, wpos' := s.workers[i].index, wpos[i := at'];
    forall l: nat | l < j.chunks && l != k ensures Reached(s, wpos', cpos, j, l) == Reached(s, wpos, cpos, j, l) {
      if 1 <= l <= |s.taken| { assert s.workers[s.taken[l - 1]].index == l; }
    }
  }

  lemma WorkerPos(s: Pool, i: nat, wpos: seq<Mark>, cpos: Mark, at': Mark, j: Job, len: nat -> nat)
    requires i < |s.workers| == |wpos| && Holding(s) && j.chunks >= 1 && PosOk(s, wpos, cpos, j, len)
    requires var k := s.workers[i].index; Inside(at', len, BoundOf(j, k), BoundOf(j, k + 1))
    ensures PosOk(s, wpos[i := at'], cpos, j, len)
  {
  }

  // ----- the pool moves -----

  /** Where the mark of worker `i` stands does not change when it moves without running a
      unit. */
  lemma WorkerMark(s: Pool, i: nat, pos: Mark, pos': Mark, j: Job)
    requires Inv(s) && InFlight(s) && |s.jobs| > 0 && j == s.jobs[|s.jobs| - 1] && j.chunks >= 1 && i < |s.workers|
    requires var w := s.workers[i];
             && (w.pc.Body? ==> pos == Mark(BoundOf(j, w.index + 1), 0))
             && pos' == if w.pc.Enter? then Mark(Bound(s.jobs, s.job, w.index), 0) else pos
    ensures var w, w' := s.workers[i], WorkerStep(s, i).workers[i];
            && (!w.pc.Start? && w.index < j.chunks ==>
                  && w'.index == w.index
                  && WorkerReached(w', pos', |s.jobs|, BoundOf(j, w.index), BoundOf(j, w.index + 1))
                     == WorkerReached(w, pos, |s.jobs|, BoundOf(j, w.index), BoundOf(j, w.index + 1)))
            && (w.pc.Start? ==> w'.lap == 0)
            && (w'.pc.Body? ==> w.pc.Enter? && w.index < j.chunks && w'.index == w.index && pos' == Mark(BoundOf(j, w.index), 0))
  {
    FlightMeans(s);
    assert PlaceOk(s, i);
  }

  lemma MarkStays(s: Pool, i: nat, wpos: seq<Mark>, wpos': seq<Mark>, cpos: Mark, j: Job, k: nat)
    requires Inv(s) && InFlight(s) && |s.jobs| > 0 && j == s.jobs[|s.jobs| - 1] && j.chunks >= 1 && i < |s.workers|
    requires |wpos| == |wpos'| == |s.workers| && k < j.chunks && wpos' == wpos[i := wpos'[i]]
    requires var w := s.workers[i];
             && (w.pc.Body? ==> wpos[i] == Mark(BoundOf(j, w.index + 1), 0))
             && wpos'[i] == if w.pc.Enter? then Mark(Bound(s.jobs, s.job, w.index), 0) else wpos[i]
    requires var s' := WorkerStep(s, i); Holding(s') && TakenOk(s') && |s'.workers| == |s.workers|
    ensures Reached(WorkerStep(s, i), wpos', cpos, j, k) == Reached(s, wpos, cpos, j, k)
  {
    WorkerFrame(s, i);
    WorkerMark(s, i, wpos[i], wpos'[i], j);
    if 1 <= k <= |s.taken| { assert s.workers[s.taken[k - 1]].index == k; }
  }

  lemma WorkerMarks(s: Pool, i: nat, wpos: seq<Mark>, wpos': seq<Mark>, cpos: Mark, j: Job, len: nat -> nat, marks: seq<Mark>)
    requires Inv(s) && InFlight(s) && |s.jobs| > 0 && j == s.jobs[|s.jobs| - 1] && 1 <= j.chunks <= j.total && i < |s.workers|
    requires |wpos| == |wpos'| == |s.workers| && wpos' == wpos[i := wpos'[i]]
    requires var w := s.workers[i];
             && (w.pc.Body? ==> wpos[i].x >= BoundOf(j, w.index + 1))
             && wpos'[i] == if w.pc.Enter? then Mark(Bound(s.jobs, s.job, w.index), 0) else wpos[i]
    requires MarksAre(s, wpos, cpos, j, marks) && PosOk(s, wpos, cpos, j, len)
    requires var s' := WorkerStep(s, i); Inv(s') && Holding(s')
    ensures var s' := WorkerStep(s, i); MarksAre(s', wpos', cpos, j, marks) && PosOk(s', wpos', cpos, j, len)
  {
    var s' := WorkerStep(s, i);
    WorkerFrame(s, i);
    forall k: nat | k < j.chunks
      ensures Reached(s', wpos', cpos, j, k) == Reached(s, wpos, cpos, j, k)
    {
      MarkStays(s, i, wpos, wpos', cpos, j, k);
    }
    PlacesStay(s, i, wpos, wpos', cpos, j, len);
  }

  lemma PlacesStay(s: Pool, i: nat, wpos: seq<Mark>, wpos': seq<Mark>, cpos: Mark, j: Job, len: nat -> nat)
    requires Inv(s) && InFlight(s) && |s.jobs| > 0 && j == s.jobs[|s.jobs| - 1] && 1 <= j.chunks <= j.total && i < |s.workers|
    requires |wpos| == |wpos'| == |s.workers| && wpos' == wpos[i := wpos'[i]] && PosOk(s, wpos, cpos, j, len)
    requires var w := s.workers[i];
             && (w.pc.Body? ==> wpos[i] == Mark(BoundOf(j, w.index + 1), 0))
             && wpos'[i] == if w.pc.Enter? then Mark(Bound(s.jobs, s.job, w.index), 0) else wpos[i]
    requires Holding(WorkerStep(s, i))
    ensures PosOk(WorkerStep(s, i), wpos', cpos, j, len)
  {
    WorkerFrame(s, i);
    WorkerMark(s, i, wpos[i], wpos'[i], j);
    BoundsGrow(j);
  }

  lemma BoundsGrow(j: Job)
    requires 1 <= j.chunks <= j.total
    ensures forall k: nat, e: nat | k < j.chunks && e == k + 1 :: BoundOf(j, k) < BoundOf(j, e)
  {
    forall k: nat, e: nat | k < j.chunks && e == k + 1 ensures BoundOf(j, k) < BoundOf(j, e) {
      RangeGrows(j.total, j.chunks, k, k + 1);
    }
  }

  /** A call starts: every chunk is at its first unit. */
  lemma CallBegins(s: Pool, c: nat, ask: Job, wpos: seq<Mark>, cpos: Mark, len: nat -> nat) returns (marks: seq<Mark>)
    requires Inv(s) && |wpos| == |s.workers| && c < |s.callers| && s.callers[c].Bump? && Asked(s, ask)
    ensures var s', j := CallerMove(s, c, ask), s.callers[c].j;
            && Inv(s') && InFlight(s') && s'.jobs == s.jobs + [j] && j.chunks >= 1
            && MarksAre(s', wpos, cpos, j, marks) && PosOk(s', wpos, cpos, j, len)
            && forall k: nat | k < j.chunks :: marks[k] == Mark(BoundOf(j, k), 0)
  {
    var s', j := CallerMove(s, c, ask), s.callers[c].j;
    CallerKeeps(s, c, ask);
    Quiet(s);
    assert Fits(s, j) && s.holder == Some(c) && s'.callers[c].Begin? && s'.workers == s.workers;
    assert BoundOf(j, 0) == 0;
    marks := seq(j.chunks, (k: nat) => Mark(BoundOf(j, k), 0));
  }

  /** At an open barrier every chunk is at its end. */
  lemma AllAtEnd(s: Pool, wpos: seq<Mark>, cpos: Mark, j: Job, k: nat)
    requires Inv(s) && InFlight(s) && s.callers[s.holder.value].Barrier? && s.arrived == s.left && |s.jobs| > 0
    requires j == s.jobs[|s.jobs| - 1] && |wpos| == |s.workers| && k < j.chunks
    ensures Reached(s, wpos, cpos, j, k) == Mark(BoundOf(j, k + 1), 0)
  {
    BarrierMeans(s);
    assert Fits(s, j);
    if k > 0 { assert Arrived(s.workers[s.taken[k - 1]], |s.jobs|); }
  }

  lemma CallerMarks(s: Pool, c: nat, ask: Job, wpos: seq<Mark>, cpos: Mark, cpos': Mark, j: Job, len: nat -> nat, marks: seq<Mark>)
    requires Inv(s) && InFlight(s) && c < |s.callers| && |wpos| == |s.workers| && j.chunks >= 1
    requires Inv(CallerMove(s, c, ask)) && InFlight(CallerMove(s, c, ask))
    requires MarksAre(s, wpos, cpos, j, marks) && PosOk(s, wpos, cpos, j, len)
    requires s.callers[c].Run? ==> cpos.x >= BoundOf(j, 1)
    requires cpos' == if s.callers[c].Begin? then Mark(0, 0) else cpos
    ensures MarksAre(CallerMove(s, c, ask), wpos, cpos', j, marks) && PosOk(CallerMove(s, c, ask), wpos, cpos', j, len)
  {
    var s' := CallerMove(s, c, ask);
    CallerFrame(s, c, ask);
    assert s'.taken == s.taken && s'.holder == s.holder;
    forall k: nat | k < j.chunks
      ensures Reached(s', wpos, cpos', j, k) == Reached(s, wpos, cpos, j, k)
    {
    }
  }
}
