/** The pool cannot hang: under a fair scheduler every call that holds the lock
    returns, and every worker leaves after the destructor's bump. */
module SpinPoolLiveness {
  import opened SpinPool

  /** An endless schedule: `who(n)` moves at time `n`. */
  ghost predicate Schedule(run: nat -> Pool, who: nat -> Thread) {
    Init(run(0)) && forall n: nat :: Moves(run, who, n)
  }

  ghost predicate Moves(run: nat -> Pool, who: nat -> Thread, n: nat) {
    Present(run(n), who(n)) && run(n + 1) == Step(run(n), who(n))
  }

  /** No thread of the pool is starved. */
  ghost predicate Fair(run: nat -> Pool, who: nat -> Thread) {
    && (forall n: nat, i: nat | i < |run(0).workers| :: WorkerServed(who, i, n))
    && (forall n: nat, c: nat | c < |run(0).callers| :: CallerServed(who, c, n))
  }

  ghost predicate WorkerServed(who: nat -> Thread, i: nat, n: nat) { exists m: nat :: Turn(who, AsWorker(i), n, m) }
  ghost predicate CallerServed(who: nat -> Thread, c: nat, n: nat) { exists m: nat :: CallerTurn(who, c, n, m) }
  ghost predicate Turn(who: nat -> Thread, t: Thread, n: nat, m: nat) { n <= m && who(m) == t }
  ghost predicate CallerTurn(who: nat -> Thread, c: nat, n: nat, m: nat) {
    n <= m && who(m).AsCaller? && who(m).c == c
  }

  lemma StepSizes(s: Pool, t: Thread)
    requires Present(s, t)
    ensures |Step(s, t).workers| == |s.workers| && |Step(s, t).callers| == |s.callers|
  {
  }

  lemma NextInv(s: Pool, t: Thread, s': Pool)
    requires Inv(s) && Present(s, t) && s' == Step(s, t)
    ensures Inv(s')
  {
    StepKeeps(s, t);
  }

  lemma {:induction false} AlwaysInv(run: nat -> Pool, who: nat -> Thread, n: nat)
    requires Schedule(run, who)
    ensures Inv(run(n)) && Moves(run, who, n)
  {
    assert Moves(run, who, n);
    if n == 0 {
      InitInv(run(0));
    } else {
      AlwaysInv(run, who, n - 1);
      NextInv(run(n - 1), who(n - 1), run(n));
    }
  }

  lemma {:induction false} AlwaysSizes(run: nat -> Pool, who: nat -> Thread, n: nat)
    requires Schedule(run, who)
    ensures |run(n).workers| == |run(0).workers| && |run(n).callers| == |run(0).callers|
  {
    if n > 0 {
      AlwaysSizes(run, who, n - 1);
      assert Moves(run, who, n - 1);
      StepSizes(run(n - 1), who(n - 1));
    }
  }

  lemma Always(run: nat -> Pool, who: nat -> Thread, n: nat)
    requires Schedule(run, who)
    ensures Inv(run(n)) && |run(n).workers| == |run(0).workers| && |run(n).callers| == |run(0).callers|
    ensures Moves(run, who, n)
  {
    AlwaysInv(run, who, n);
    AlwaysSizes(run, who, n);
  }

  // ----- fuel: the worker steps still owed -----

  /** How many own steps worker `w` is from having arrived in generation `g`. */
  function ToArrive(w: Worker, g: nat): nat {
    if Arrived(w, g) then 0 else
      match w.pc
      case Start => 9 case Idle => 8 case Spin => 7 case Wake => 6 case See => 5
      case Claim => 4 case Enter => 3 case Body(_) => 2 case Arrive => 1 case Exit => 0
  }

  /** How many own steps worker `w` is from leaving once the pool is stopping. */
  function ToExit(w: Worker, g: nat): nat {
    match w.pc
    case Exit => 0 case Wake => 1 case Spin => 2 case Idle => 1 case Start => 3 case _ => 4
  }

  function Fuel(ws: seq<Worker>, g: nat, rank: (Worker, nat) -> nat): (f: nat)
  {
    if ws == [] then 0 else rank(ws[0], g) + Fuel(ws[1..], g, rank)
  }

  lemma {:induction false} FuelUpdate(ws: seq<Worker>, i: nat, w: Worker, g: nat, rank: (Worker, nat) -> nat)
    requires i < |ws|
    ensures Fuel(ws[i := w], g, rank) + rank(ws[i], g) == Fuel(ws, g, rank) + rank(w, g)
  {
    if i == 0 {
      assert ws[i := w][1..] == ws[1..];
    } else {
      assert ws[i := w][1..] == ws[1..][i - 1 := w];
      FuelUpdate(ws[1..], i - 1, w, g, rank);
    }
  }

  /** Some worker owes a step whenever fuel is left. */
  lemma {:induction false} FuelOwner(ws: seq<Worker>, g: nat, rank: (Worker, nat) -> nat) returns (i: nat)
    requires Fuel(ws, g, rank) > 0
    ensures i < |ws| && rank(ws[i], g) > 0
  {
    if rank(ws[0], g) > 0 {
      i := 0;
    } else {
      i := FuelOwner(ws[1..], g, rank);
      i := i + 1;
    }
  }

  lemma {:induction false} FuelEmpty(ws: seq<Worker>, g: nat, rank: (Worker, nat) -> nat, i: nat)
    requires Fuel(ws, g, rank) == 0 && i < |ws|
    ensures rank(ws[i], g) == 0
  {
    if i > 0 { FuelEmpty(ws[1..], g, rank, i - 1); }
  }

  // ----- the barrier opens -----

  ghost predicate AtBarrier(s: Pool, c: nat) {
    c < |s.callers| && s.callers[c].Barrier? && s.holder == Some(c)
  }

  function Owed(s: Pool): nat { Fuel(s.workers, |s.jobs|, ToArrive) }

  lemma BarrierState(s: Pool, c: nat)
    requires Inv(s) && c < |s.callers| && s.callers[c].Barrier?
    ensures AtBarrier(s, c) && InFlight(s) && Published(s) && s.phase == Alive
  {
  }

  lemma OpenMeans(s: Pool, c: nat)
    requires Inv(s) && AtBarrier(s, c)
    ensures Owed(s) == 0 <==> s.arrived == s.left
  {
    BarrierState(s, c);
    CountFull(s.workers, |s.jobs|);
    if Owed(s) == 0 {
      forall i | 0 <= i < |s.workers|
        ensures Arrived(s.workers[i], |s.jobs|)
      {
        FuelEmpty(s.workers, |s.jobs|, ToArrive, i);
        assert PlaceOk(s, i);
      }
    } else {
      var i := FuelOwner(s.workers, |s.jobs|, ToArrive);
    }
  }

  /** A worker's own step brings it closer to having arrived. */
  lemma ArriveCloser(s: Pool, i: nat)
    requires i < |s.workers| && InFlight(s) && PlaceOk(s, i) && s.phase == Alive && !s.stop
    requires |s.jobs| > 0 && s.gen == |s.jobs| % WORD
    ensures var g, was, now := |s.jobs|, s.workers[i], WorkerStep(s, i).workers[i];
            ToArrive(now, g) <= ToArrive(was, g) && (ToArrive(was, g) > 0 ==> ToArrive(now, g) < ToArrive(was, g))
  {
    LagIsVisible(|s.jobs| - 1);
  }

  /** While caller `c` spins, a worker that has arrived spends nothing and any
      other worker's step spends fuel. */
  lemma BarrierWorker(s: Pool, i: nat, c: nat)
    requires Inv(s) && AtBarrier(s, c) && i < |s.workers|
    ensures var s' := WorkerStep(s, i);
            && AtBarrier(s', c) && s'.jobs == s.jobs && s'.workers == s.workers[i := s'.workers[i]]
            && Owed(s') <= Owed(s)
            && (ToArrive(s.workers[i], |s.jobs|) > 0 ==> Owed(s') < Owed(s))
  {
    BarrierState(s, c);
    assert PlaceOk(s, i);
    ArriveCloser(s, i);
    WorkerFrame(s, i);
    FuelUpdate(s.workers, i, WorkerStep(s, i).workers[i], |s.jobs|, ToArrive);
  }

  /** Nobody else adds to what is owed, and the caller leaves once nothing is. */
  lemma BarrierOther(s: Pool, t: Thread, c: nat)
    requires Inv(s) && AtBarrier(s, c) && Present(s, t) && !t.AsWorker?
    ensures var s' := Step(s, t);
            if t.AsCaller? && t.c == c && Owed(s) == 0 then s'.callers[c].Unlock?
            else AtBarrier(s', c) && s'.jobs == s.jobs && s'.workers == s.workers
  {
    BarrierState(s, c);
    OpenMeans(s, c);
    if t.AsCaller? && t.c != c {
      assert Outside(s.callers[t.c]);
    }
  }

  /** Before worker `i` has had its next turn, somebody has spent fuel. */
  lemma {:induction false} SpendOnce(run: nat -> Pool, who: nat -> Thread, c: nat, n: nat, i: nat, m: nat) returns (k: nat)
    requires Schedule(run, who) && AtBarrier(run(n), c)
    requires i < |run(n).workers| && ToArrive(run(n).workers[i], |run(n).jobs|) > 0
    requires Turn(who, AsWorker(i), n, m)
    ensures n < k && AtBarrier(run(k), c) && Owed(run(k)) < Owed(run(n))
    decreases m - n
  {
    Always(run, who, n);
    var s, t := run(n), who(n);
    OwnerOwes(s, i);
    if t.AsWorker? { BarrierWorker(s, t.i, c); } else { BarrierOther(s, t, c); }
    k := n + 1;
    if Owed(run(k)) >= Owed(s) {
      assert t != AsWorker(i);
      k := SpendOnce(run, who, c, n + 1, i, m);
    }
  }

  lemma {:induction false} RankInFuel(ws: seq<Worker>, g: nat, rank: (Worker, nat) -> nat, i: nat)
    requires i < |ws|
    ensures rank(ws[i], g) <= Fuel(ws, g, rank)
  {
    if i > 0 { RankInFuel(ws[1..], g, rank, i - 1); }
  }

  lemma OwnerOwes(s: Pool, i: nat)
    requires i < |s.workers| && ToArrive(s.workers[i], |s.jobs|) > 0
    ensures Owed(s) > 0
  {
    RankInFuel(s.workers, |s.jobs|, ToArrive, i);
  }

  /** Every worker arrives. */
  lemma {:induction false} BarrierFills(run: nat -> Pool, who: nat -> Thread, c: nat, n: nat) returns (m: nat)
    requires Schedule(run, who) && Fair(run, who) && AtBarrier(run(n), c)
    ensures n <= m && AtBarrier(run(m), c) && run(m).arrived == run(m).left
    decreases Owed(run(n))
  {
    Always(run, who, n);
    OpenMeans(run(n), c);
    m := n;
    if Owed(run(n)) > 0 {
      var i := FuelOwner(run(n).workers, |run(n).jobs|, ToArrive);
      assert WorkerServed(who, i, n);
      var turn: nat :| Turn(who, AsWorker(i), n, turn);
      var k := SpendOnce(run, who, c, n, i, turn);
      m := BarrierFills(run, who, c, k);
    }
  }

  lemma OpenStep(run: nat -> Pool, who: nat -> Thread, c: nat, n: nat)
    requires Schedule(run, who) && AtBarrier(run(n), c) && run(n).arrived == run(n).left
    ensures if who(n).AsCaller? && who(n).c == c then c < |run(n + 1).callers| && run(n + 1).callers[c].Unlock?
            else AtBarrier(run(n + 1), c) && Owed(run(n + 1)) == 0
  {
    Always(run, who, n);
    OpenMeans(run(n), c);
    if who(n).AsWorker? { BarrierWorker(run(n), who(n).i, c); } else { BarrierOther(run(n), who(n), c); }
  }

  /** An open barrier stays open until its caller looks. */
  lemma {:induction false} LeaveBarrier(run: nat -> Pool, who: nat -> Thread, c: nat, n: nat, turn: nat) returns (m: nat)
    requires Schedule(run, who) && AtBarrier(run(n), c) && run(n).arrived == run(n).left
    requires CallerTurn(who, c, n, turn)
    ensures n < m && c < |run(m).callers| && run(m).callers[c].Unlock?
    decreases turn - n
  {
    OpenStep(run, who, c, n);
    m := n + 1;
    if !(who(n).AsCaller? && who(n).c == c) {
      AlwaysInv(run, who, m);
      OpenMeans(run(m), c);
      m := LeaveBarrier(run, who, c, n + 1, turn);
    }
  }

  // ----- every call returns -----

  /** The steps a holder takes on its own, barrier aside. */
  function OwnSteps(pc: CallerPc): nat {
    match pc
    case SetJob(_) => 9 case SetChunks(_) => 8 case SetLeft(_) => 7 case ClearArrived(_) => 6 case Bump(_) => 5
    case Begin => 4 case Run => 3 case Barrier => 2 case Unlock => 1 case Inline(_) => 1 case Out => 0 case Lock(_) => 0
  }

  lemma OwnMove(s: Pool, c: nat, total: int, grain: int)
    requires c < |s.callers| && OwnSteps(s.callers[c]) > 0 && !s.callers[c].Barrier?
    ensures var s' := CallerStep(s, c, total, grain);
            && |s'.callers| == |s.callers| && OwnSteps(s'.callers[c]) == OwnSteps(s.callers[c]) - 1 && !s'.callers[c].Lock?
            && !s'.callers[c].Inline? && (s.callers[c].Unlock? ==> s'.holder == None)
            && (s'.callers[c] == Out && !s.callers[c].Inline? ==> s.callers[c].Unlock?)
  {
  }

  lemma OthersStay(s: Pool, t: Thread, c: nat)
    requires Present(s, t) && c < |s.callers| && !(t.AsCaller? && t.c == c)
    ensures |Step(s, t).callers| == |s.callers| && Step(s, t).callers[c] == s.callers[c]
  {
    if t.AsWorker? { WorkerFrame(s, t.i); }
  }

  /** A holder off the barrier moves on at its next turn. */
  lemma {:induction false} OwnTurn(run: nat -> Pool, who: nat -> Thread, c: nat, n: nat, turn: nat) returns (m: nat)
    requires Schedule(run, who) && CallerTurn(who, c, n, turn)
    requires c < |run(n).callers| && OwnSteps(run(n).callers[c]) > 0 && !run(n).callers[c].Barrier?
    ensures n < m && c < |run(m).callers|
    ensures OwnSteps(run(m).callers[c]) == OwnSteps(run(n).callers[c]) - 1 && !run(m).callers[c].Lock? && !run(m).callers[c].Inline?
    ensures run(m).callers[c] == Out && !run(n).callers[c].Inline? ==> run(m).holder == None
    decreases turn - n
  {
    assert Moves(run, who, n);
    m := n + 1;
    if who(n).AsCaller? && who(n).c == c {
      OwnMove(run(n), c, who(n).total, who(n).grain);
    } else {
      OthersStay(run(n), who(n), c);
      m := OwnTurn(run, who, c, n + 1, turn);
    }
  }

  lemma PassBarrier(run: nat -> Pool, who: nat -> Thread, c: nat, n: nat) returns (m: nat)
    requires Schedule(run, who) && Fair(run, who)
    requires c < |run(n).callers| && run(n).callers[c].Barrier?
    ensures n < m && c < |run(m).callers| && run(m).callers[c].Unlock?
  {
    AlwaysInv(run, who, n);
    AlwaysSizes(run, who, n);
    BarrierState(run(n), c);
    var k := BarrierFills(run, who, c, n);
    assert CallerServed(who, c, k);
    var turn: nat :| CallerTurn(who, c, k, turn);
    m := LeaveBarrier(run, who, c, k, turn);
  }

  /** Main result: a caller that has taken the lock gets out of `run_ranges`. */
  lemma {:induction false} EveryCallReturns(run: nat -> Pool, who: nat -> Thread, c: nat, n: nat) returns (m: nat)
    requires Schedule(run, who) && Fair(run, who)
    requires c < |run(n).callers| && !run(n).callers[c].Out? && !run(n).callers[c].Lock?
    ensures n < m && c < |run(m).callers| && run(m).callers[c] == Out
    ensures !run(n).callers[c].Inline? ==> run(m).holder == None
    decreases OwnSteps(run(n).callers[c])
  {
    if run(n).callers[c].Barrier? {
      var k := PassBarrier(run, who, c, n);
      m := EveryCallReturns(run, who, c, k);
    } else {
      AlwaysSizes(run, who, n);
      assert CallerServed(who, c, n);
      var turn: nat :| CallerTurn(who, c, n, turn);
      m := OwnTurn(run, who, c, n, turn);
      if run(m).callers[c] != Out {
        m := EveryCallReturns(run, who, c, m);
      }
    }
  }

  // ----- every call asked for returns -----

  /** The mutex is fair: a caller that waits has, sooner or later, a turn at which the lock
      is free. */
  ghost predicate FairLock(run: nat -> Pool, who: nat -> Thread) {
    forall n: nat, c: nat | c < |run(0).callers| :: LockServed(run, who, c, n)
  }

  ghost predicate LockServed(run: nat -> Pool, who: nat -> Thread, c: nat, n: nat) { exists m: nat :: FreeTurn(run, who, c, n, m) }

  ghost predicate FreeTurn(run: nat -> Pool, who: nat -> Thread, c: nat, n: nat, m: nat) {
    CallerTurn(who, c, n, m) && run(m).holder.None?
  }

  /** The next turn of caller `c`, until which nobody moves it. */
  lemma {:induction false} NextTurn(run: nat -> Pool, who: nat -> Thread, c: nat, n: nat, turn: nat) returns (k: nat)
    requires Schedule(run, who) && CallerTurn(who, c, n, turn) && c < |run(n).callers|
    ensures n <= k <= turn && who(k).AsCaller? && who(k).c == c && c < |run(k).callers| && run(k).callers[c] == run(n).callers[c]
    ensures Moves(run, who, k) && run(n).jobs <= run(k).jobs
    decreases turn - n
  {
    assert Moves(run, who, n);
    k := n;
    if !(who(n).AsCaller? && who(n).c == c) {
      OthersStay(run(n), who(n), c);
      JobsStay(run(n), who(n));
      k := NextTurn(run, who, c, n + 1, turn);
    }
  }

  lemma JobsStay(s: Pool, t: Thread)
    requires Present(s, t)
    ensures s.jobs <= Step(s, t).jobs
  {
    match t
    case AsWorker(i) => WorkerFrame(s, i);
    case AsCaller(c, total, grain) => CallerFrame(s, c, Shape(total, grain, |s.workers| + 1));
    case AsDestructor =>
  }

  lemma {:induction false} JobsPrefix(run: nat -> Pool, who: nat -> Thread, n: nat, m: nat)
    requires Schedule(run, who) && n <= m
    ensures run(n).jobs <= run(m).jobs
    decreases m - n
  {
    if n < m {
      assert Moves(run, who, n);
      JobsStay(run(n), who(n));
      JobsPrefix(run, who, n + 1, m);
    }
  }

  /** A waiting caller gets the lock. */
  lemma {:induction false} GetsLock(run: nat -> Pool, who: nat -> Thread, c: nat, n: nat, free: nat) returns (m: nat)
    requires Schedule(run, who) && c < |run(n).callers| && run(n).callers[c].Lock? && FreeTurn(run, who, c, n, free)
    ensures n < m && c < |run(m).callers| && run(m).callers[c] == SetJob(run(n).callers[c].j) && run(n).jobs <= run(m).jobs
    decreases free - n
  {
    var k := NextTurn(run, who, c, n, free);
    JobsStay(run(k), who(k));
    StepSizes(run(k), who(k));
    m := k + 1;
    if run(k).holder.Some? {
      assert k < free && run(m).callers[c] == run(n).callers[c];
      m := GetsLock(run, who, c, m, free);
    }
  }

  /** How many stores of the publication are left. */
  function StoresLeft(pc: CallerPc): nat {
    match pc case SetJob(_) => 4 case SetChunks(_) => 3 case SetLeft(_) => 2 case ClearArrived(_) => 1 case _ => 0
  }

  lemma StoreMove(s: Pool, c: nat, total: int, grain: int)
    requires c < |s.callers| && Writing(s.callers[c])
    ensures var pc, s' := s.callers[c], CallerStep(s, c, total, grain);
            && |s'.callers| == |s.callers|
            && if pc.Bump? then s'.callers[c] == Begin && s'.jobs == s.jobs + [pc.j]
               else Writing(s'.callers[c]) && s'.callers[c].j == pc.j && StoresLeft(s'.callers[c]) < StoresLeft(pc) && s'.jobs == s.jobs
  {
  }

  /** And its request becomes the pool's next job. */
  lemma {:induction false} Publishes(run: nat -> Pool, who: nat -> Thread, c: nat, n: nat) returns (m: nat)
    requires Schedule(run, who) && Fair(run, who) && c < |run(n).callers| && Writing(run(n).callers[c])
    ensures n < m && c < |run(m).callers| && run(m).callers[c] == Begin
    ensures |run(n).jobs| < |run(m).jobs| && run(m).jobs[|run(m).jobs| - 1] == run(n).callers[c].j
    decreases StoresLeft(run(n).callers[c])
  {
    AlwaysSizes(run, who, n);
    assert CallerServed(who, c, n);
    var turn: nat :| CallerTurn(who, c, n, turn);
    var k := NextTurn(run, who, c, n, turn);
    StoreMove(run(k), c, who(k).total, who(k).grain);
    m := k + 1;
    if !run(k).callers[c].Bump? {
      m := Publishes(run, who, c, m);
    }
  }

  /** Job `g` is `j`, published after `n` jobs, and its ranges ran once each. */
  ghost predicate RanAs(s: Pool, n: nat, j: Job, g: nat) {
    n < g <= |s.jobs| && s.jobs[g - 1] == j && forall k: nat :: RanOnce(s, g, k)
  }

  /** Main result: with a fair mutex, a turn of an idle caller in a live pool that asks for
      something to run is answered: the caller comes back, and if the call was cut into
      several ranges, the pool ran each of them once. */
  lemma EveryAskReturns(run: nat -> Pool, who: nat -> Thread, c: nat, n: nat, j: Job) returns (m: nat, g: nat)
    requires Schedule(run, who) && Fair(run, who) && FairLock(run, who)
    requires c < |run(n).callers| && run(n).callers[c] == Out && run(n).phase == Alive
    requires who(n).AsCaller? && who(n).c == c && who(n).total > 0
    requires j == Job(who(n).total, Partition.PartitionSize(who(n).total, if who(n).grain <= 0 then 1 else who(n).grain, |run(n).workers| + 1))
    ensures n < m && c < |run(m).callers| && run(m).callers[c] == Out
    ensures j.chunks != 1 ==> RanAs(run(m), |run(n).jobs|, j, g)
  {
    AlwaysSizes(run, who, n);
    AlwaysSizes(run, who, n + 1);
    assert Moves(run, who, n);
    AskStep(run(n), c, who(n).total, who(n).grain, j);
    g := 0;
    if j.chunks == 1 {
      m := EveryCallReturns(run, who, c, n + 1);
    } else {
      m, g := PooledReturns(run, who, c, n + 1, j);
    }
  }

  lemma AskStep(s: Pool, c: nat, total: int, grain: int, j: Job)
    requires c < |s.callers| && s.callers[c] == Out && s.phase == Alive && total > 0
    requires j == Job(total, Partition.PartitionSize(total, if grain <= 0 then 1 else grain, |s.workers| + 1))
    ensures var s' := Step(s, AsCaller(c, total, grain));
            && c < |s'.callers| && s'.jobs == s.jobs && s'.callers[c] == if j.chunks == 1 then Inline(j) else Lock(j)
  {
  }

  /** A call that waits for the lock goes through the pool. */
  lemma PooledReturns(run: nat -> Pool, who: nat -> Thread, c: nat, n: nat, j: Job) returns (m: nat, g: nat)
    requires Schedule(run, who) && Fair(run, who) && FairLock(run, who)
    requires c < |run(n).callers| && run(n).callers[c] == Lock(j)
    ensures n < m && c < |run(m).callers| && run(m).callers[c] == Out && RanAs(run(m), |run(n).jobs|, j, g)
  {
    AlwaysSizes(run, who, n);
    assert LockServed(run, who, c, n);
    var free: nat :| FreeTurn(run, who, c, n, free);
    var locked := GetsLock(run, who, c, n, free);
    var published := Publishes(run, who, c, locked);
    g := |run(published).jobs|;
    m := EveryCallReturns(run, who, c, published);
    JobsPrefix(run, who, published, m);
    AlwaysInv(run, who, m);
    assert !InFlight(run(m));
  }

  // ----- shutdown -----

  function Leaving(s: Pool): nat { Fuel(s.workers, |s.jobs|, ToExit) }

  ghost predicate Closing(s: Pool) { s.phase == Joining || s.phase == Joined }

  /** After the destructor's bump no worker starts a body, and each worker step
      that is not already past the exit brings it closer. */
  lemma ClosingStep(s: Pool, t: Thread)
    requires Inv(s) && Closing(s) && Present(s, t)
    ensures var s' := Step(s, t);
            && Closing(s') && s'.begun == s.begun && s'.jobs == s.jobs && |s'.workers| == |s.workers|
            && Leaving(s') <= Leaving(s)
            && (t.AsWorker? && !s.workers[t.i].pc.Exit? ==> Leaving(s') < Leaving(s))
            && (forall i | 0 <= i < |s.workers| && !(t.AsWorker? && t.i == i) :: s'.workers[i] == s.workers[i])
  {
    Quiet(s);
    LagIsVisible(|s.jobs|);
    var s' := Step(s, t);
    if t.AsWorker? {
      assert PlaceOk(s, t.i);
      FuelUpdate(s.workers, t.i, s'.workers[t.i], |s.jobs|, ToExit);
      assert s'.workers == s.workers[t.i := s'.workers[t.i]];
    }
  }

  lemma {:induction false} ExitOnce(run: nat -> Pool, who: nat -> Thread, n: nat, i: nat, m: nat) returns (k: nat)
    requires Schedule(run, who) && Closing(run(n))
    requires i < |run(n).workers| && !run(n).workers[i].pc.Exit? && Turn(who, AsWorker(i), n, m)
    ensures n < k && Closing(run(k)) && Leaving(run(k)) < Leaving(run(n)) && run(k).begun == run(n).begun
    decreases m - n
  {
    Always(run, who, n);
    ClosingStep(run(n), who(n));
    k := n + 1;
    if Leaving(run(k)) >= Leaving(run(n)) {
      k := ExitOnce(run, who, n + 1, i, m);
    }
  }

  /** Main result: once the destructor has bumped the generation, every worker
      leaves, so the joins end, and no body starts on the way. */
  lemma {:induction false} ShutdownJoins(run: nat -> Pool, who: nat -> Thread, n: nat) returns (m: nat)
    requires Schedule(run, who) && Fair(run, who) && Closing(run(n))
    ensures n <= m && forall i | 0 <= i < |run(m).workers| :: run(m).workers[i].pc == Exit
    ensures run(m).begun == run(n).begun
    decreases Leaving(run(n))
  {
    Always(run, who, n);
    m := n;
    if Leaving(run(n)) > 0 {
      var i := FuelOwner(run(n).workers, |run(n).jobs|, ToExit);
      assert WorkerServed(who, i, n);
      var turn: nat :| Turn(who, AsWorker(i), n, turn);
      var k := ExitOnce(run, who, n, i, turn);
      m := ShutdownJoins(run, who, k);
    } else {
      forall i | 0 <= i < |run(n).workers| ensures run(n).workers[i].pc == Exit {
        FuelEmpty(run(n).workers, |run(n).jobs|, ToExit, i);
      }
    }
  }

  // ----- the destructor, start to end -----

  /** The destroying thread is not starved either. */
  ghost predicate FairDestructor(who: nat -> Thread) { forall n: nat :: DestructorServed(who, n) }

  ghost predicate DestructorServed(who: nat -> Thread, n: nat) { exists m: nat :: Turn(who, AsDestructor, n, m) }

  ghost predicate AllExited(s: Pool) { forall i | 0 <= i < |s.workers| :: s.workers[i].pc == Exit }

  lemma OthersKeepPhase(s: Pool, t: Thread)
    requires Inv(s) && Present(s, t) && s.phase != Alive && !t.AsDestructor?
    ensures Step(s, t).phase == s.phase && Step(s, t).jobs == s.jobs
    ensures AllExited(s) ==> AllExited(Step(s, t))
  {
    if t.AsWorker? { WorkerFrame(s, t.i); }
  }

  /** The destructor's next turn finds the phase it left. */
  lemma {:induction false} DestructorTurn(run: nat -> Pool, who: nat -> Thread, n: nat, turn: nat) returns (k: nat)
    requires Schedule(run, who) && run(n).phase != Alive && Turn(who, AsDestructor, n, turn)
    ensures n <= k && run(k + 1) == DestructorStep(run(k)) && run(k).phase == run(n).phase && run(k).jobs == run(n).jobs
    ensures AllExited(run(n)) ==> AllExited(run(k))
    decreases turn - n
  {
    Always(run, who, n);
    k := n;
    if who(n) != AsDestructor {
      OthersKeepPhase(run(n), who(n));
      k := DestructorTurn(run, who, n + 1, turn);
    }
  }

  lemma NextDestructorTurn(run: nat -> Pool, who: nat -> Thread, n: nat) returns (k: nat)
    requires Schedule(run, who) && FairDestructor(who) && run(n).phase != Alive
    ensures n <= k && run(k + 1) == DestructorStep(run(k)) && run(k).phase == run(n).phase && run(k).jobs == run(n).jobs
    ensures AllExited(run(n)) ==> AllExited(run(k))
  {
    assert DestructorServed(who, n);
    var turn: nat :| Turn(who, AsDestructor, n, turn);
    k := DestructorTurn(run, who, n, turn);
  }

  lemma {:induction false} ClosingStays(run: nat -> Pool, who: nat -> Thread, n: nat, m: nat)
    requires Schedule(run, who) && n <= m && Closing(run(n))
    ensures Closing(run(m)) && run(m).jobs == run(n).jobs
    decreases m - n
  {
    if n < m {
      Always(run, who, n);
      ClosingStep(run(n), who(n));
      ClosingStays(run, who, n + 1, m);
    }
  }

  /** Stop and bump. */
  lemma DestructorCloses(run: nat -> Pool, who: nat -> Thread, n: nat) returns (m: nat)
    requires Schedule(run, who) && FairDestructor(who) && run(n).phase != Alive
    ensures n <= m && Closing(run(m)) && run(m).jobs == run(n).jobs
  {
    m := n;
    if run(n).phase == Stopping {
      m := NextDestructorTurn(run, who, n);
      m := m + 1;
    }
  }

  /** Join. */
  lemma DestructorJoins(run: nat -> Pool, who: nat -> Thread, n: nat) returns (m: nat)
    requires Schedule(run, who) && Fair(run, who) && FairDestructor(who) && Closing(run(n))
    ensures n <= m && run(m).phase == Joined && AllExited(run(m)) && run(m).jobs == run(n).jobs
  {
    var left := ShutdownJoins(run, who, n);
    ClosingStays(run, who, n, left);
    var k := NextDestructorTurn(run, who, left);
    m := k + 1;
  }

  lemma DestructorStarts(s: Pool)
    requires forall c | 0 <= c < |s.callers| :: s.callers[c] == Out
    ensures DestructorStep(s).phase != Alive && DestructorStep(s).jobs == s.jobs
  {
  }

  lemma StoppedPool(s: Pool)
    requires Inv(s) && s.phase != Alive
    ensures s.stop
  {
  }

  /** Main result: a destructor that finds no call in flight stops the pool, wakes the
      workers, waits until every one of them has left, and returns; no further call runs. */
  lemma DestructorReturns(run: nat -> Pool, who: nat -> Thread, n: nat) returns (m: nat)
    requires Schedule(run, who) && Fair(run, who) && FairDestructor(who)
    requires who(n) == AsDestructor && forall c | 0 <= c < |run(n).callers| :: run(n).callers[c] == Out
    ensures n < m && run(m).phase == Joined && run(m).stop && run(m).jobs == run(n).jobs
    ensures forall i | 0 <= i < |run(m).workers| :: run(m).workers[i].pc == Exit
  {
    assert Moves(run, who, n);
    DestructorStarts(run(n));
    var closing := DestructorCloses(run, who, n + 1);
    m := DestructorJoins(run, who, closing);
    AlwaysInv(run, who, m);
    StoppedPool(run(m));
  }
}
