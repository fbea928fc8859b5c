/** The spin-barrier thread pool as a state machine.

    A step is one access to shared memory by one thread, in any order the
    scheduler likes.  There are arbitrarily many workers and callers, and one
    destructor.  `gen` and `seen` are 64-bit words that wrap; `lap`, `jobs`,
    `begun`, `ended` and `taken` are history that no step reads back. */
module SpinPool {
  import Arith
  import opened Partition

  const WORD := 0x1_0000_0000_0000_0000

  datatype Option<T> = None | Some(value: T)

  /** What one call runs: `chunks` ranges that cover `[0, total)`. */
  datatype Job = Job(total: nat, chunks: nat)

  datatype WorkerPc =
    | Start           // about to draw its index
    | Spin            // about to compare generation_ with `seen`
    | Idle            // saw its own generation; about to load stop_
    | Wake            // saw another generation; about to load stop_
    | See             // about to re-read generation_ into `seen`
    | Claim           // about to compare its index with chunks_
    | Enter           // about to call job_
    | Body(job: nat)  // inside the body of call number `job`
    | Arrive          // about to add itself to arrived_in_job_
    | Exit

  /** `lap` counts the generations published when `seen` was last read. */
  datatype Worker = Worker(pc: WorkerPc, index: nat, seen: nat, lap: nat)

  datatype CallerPc =
    | Out                // outside run_ranges
    | Inline(j: Job)     // running the whole range itself, without the pool
    | Lock(j: Job)       // waiting for the mutex
    | SetJob(j: Job)     // the five stores of the publication, in order
    | SetChunks(j: Job)
    | SetLeft(j: Job)
    | ClearArrived(j: Job)
    | Bump(j: Job)
    | Begin              // about to run chunk zero
    | Run                // inside chunk zero
    | Barrier            // spinning on arrived_in_job_
    | Unlock             // past the barrier, about to return

  datatype Phase = Alive | Stopping | Joining | Joined

  datatype Pool = Pool(
    workers: seq<Worker>, callers: seq<CallerPc>, holder: Option<nat>,
    job: nat, chunks: nat, left: nat, arrived: nat, gen: nat, stop: bool, next: nat, phase: Phase,
    jobs: seq<Job>, begun: multiset<(nat, nat)>, ended: multiset<(nat, nat)>, taken: seq<nat>)

  /** Who moves: a worker, a caller (with the shape it asks for if it is outside),
      or the destructor. */
  datatype Thread = AsWorker(i: nat) | AsCaller(c: nat, total: int, grain: int) | AsDestructor

  predicate Init(s: Pool) {
    && (forall i | 0 <= i < |s.workers| :: s.workers[i] == Worker(Start, 0, 0, 0))
    && (forall c | 0 <= c < |s.callers| :: s.callers[c] == Out)
    && s.holder == None && s.job == 0 && s.chunks == 0 && s.left == 0 && s.arrived == 0
    && s.gen == 0 && !s.stop && s.next == 0 && s.phase == Alive
    && s.jobs == [] && s.begun == multiset{} && s.ended == multiset{} && s.taken == []
  }

  function WorkerStep(s: Pool, i: nat): Pool
    requires i < |s.workers|
  {
    var w := s.workers[i];
    match w.pc
    case Start =>
      s.(next := s.next + 1, taken := s.taken + [i],
         workers := s.workers[i := Worker(Spin, s.next + 1, 0, 0)])
    case Spin => s.(workers := s.workers[i := w.(pc := if s.gen == w.seen then Idle else Wake)])
    case Idle => s.(workers := s.workers[i := w.(pc := if s.stop then Exit else Spin)])
    case Wake => s.(workers := s.workers[i := w.(pc := if s.stop then Exit else See)])
    case See => s.(workers := s.workers[i := w.(pc := Claim, seen := s.gen, lap := |s.jobs|)])
    case Claim => s.(workers := s.workers[i := w.(pc := if w.index < s.chunks then Enter else Arrive)])
    case Enter =>
      s.(begun := s.begun + multiset{(s.job, w.index)}, workers := s.workers[i := w.(pc := Body(s.job))])
    case Body(j) =>
      s.(ended := s.ended + multiset{(j, w.index)}, workers := s.workers[i := w.(pc := Arrive)])
    case Arrive => s.(arrived := s.arrived + 1, workers := s.workers[i := w.(pc := Spin)])
    case Exit => s
  }

  /** `min_per_task <= 0` reads as 1. */
  function Shape(total: int, grain: int, threads: nat): (j: Job)
    ensures 1 < j.chunks ==> j.chunks <= threads && j.chunks <= j.total
  {
    Job(if total <= 0 then 0 else total, PartitionSize(total, if grain <= 0 then 1 else grain, threads))
  }

  /** A caller's step; `ask` is the shape of its call if it is outside.  Nothing is run for
      nothing, one range runs on the caller without touching the pool. */
  function CallerMove(s: Pool, c: nat, ask: Job): Pool
    requires c < |s.callers|
  {
    match s.callers[c]
    case Out =>
      if s.phase != Alive || ask.chunks == 0 then s
      else s.(callers := s.callers[c := if ask.chunks == 1 then Inline(ask) else Lock(ask)])
    case Inline(j) => s.(callers := s.callers[c := Out])
    case Lock(j) =>
      if s.holder.Some? then s else s.(holder := Some(c), callers := s.callers[c := SetJob(j)])
    case SetJob(j) => s.(job := |s.jobs| + 1, callers := s.callers[c := SetChunks(j)])
    case SetChunks(j) => s.(chunks := j.chunks, callers := s.callers[c := SetLeft(j)])
    case SetLeft(j) => s.(left := |s.workers|, callers := s.callers[c := ClearArrived(j)])
    case ClearArrived(j) => s.(arrived := 0, callers := s.callers[c := Bump(j)])
    case Bump(j) =>
      s.(gen := (s.gen + 1) % WORD, jobs := s.jobs + [j], callers := s.callers[c := Begin])
    case Begin => s.(begun := s.begun + multiset{(s.job, 0)}, callers := s.callers[c := Run])
    case Run => s.(ended := s.ended + multiset{(s.job, 0)}, callers := s.callers[c := Barrier])
    case Barrier => if s.arrived == s.left then s.(callers := s.callers[c := Unlock]) else s
    case Unlock => s.(holder := None, callers := s.callers[c := Out])
  }

  function CallerStep(s: Pool, c: nat, total: int, grain: int): Pool
    requires c < |s.callers|
  {
    CallerMove(s, c, Shape(total, grain, |s.workers| + 1))
  }

  /** The destructor runs when no call is in flight and none will start. */
  function DestructorStep(s: Pool): Pool {
    match s.phase
    case Alive =>
      if forall c | 0 <= c < |s.callers| :: s.callers[c] == Out then s.(stop := true, phase := Stopping) else s
    case Stopping => s.(gen := (s.gen + 1) % WORD, phase := Joining)
    case Joining =>
      if forall i | 0 <= i < |s.workers| :: s.workers[i].pc == Exit then s.(phase := Joined) else s
    case Joined => s
  }

  predicate Present(s: Pool, t: Thread) {
    match t
    case AsWorker(i) => i < |s.workers|
    case AsCaller(c, _, _) => c < |s.callers|
    case AsDestructor => true
  }

  function Step(s: Pool, t: Thread): Pool
    requires Present(s, t)
  {
    match t
    case AsWorker(i) => WorkerStep(s, i)
    case AsCaller(c, total, grain) => CallerStep(s, c, total, grain)
    case AsDestructor => DestructorStep(s)
  }

  // ----- the invariant -----

  ghost predicate Writing(pc: CallerPc) { pc.SetJob? || pc.SetChunks? || pc.SetLeft? || pc.ClearArrived? || pc.Bump? }
  ghost predicate Flying(pc: CallerPc) { pc.Begin? || pc.Run? || pc.Barrier? }

  /** Not between acquire and release. */
  predicate Outside(pc: CallerPc) { pc.Out? || pc.Inline? || pc.Lock? }

  ghost predicate Holding(s: Pool) {
    s.holder.Some? && s.holder.value < |s.callers|
  }

  /** A job is published and its caller has not passed the barrier. */
  ghost predicate InFlight(s: Pool) {
    Holding(s) && Flying(s.callers[s.holder.value])
  }

  /** Mutual exclusion: exactly the holder is between acquire and release. */
  ghost predicate LockOk(s: Pool) {
    && (s.holder.Some? ==> s.holder.value < |s.callers|)
    && (forall c | 0 <= c < |s.callers| ::
          Outside(s.callers[c]) <==> s.holder != Some(c))
  }

  ghost predicate Fits(s: Pool, j: Job) { 1 < j.chunks <= |s.workers| + 1 && j.chunks <= j.total }

  ghost predicate JobsOk(s: Pool) {
    && (forall g | 0 <= g < |s.jobs| :: Fits(s, s.jobs[g]))
    && (forall c | 0 <= c < |s.callers| ::
          (s.callers[c].Lock? || Writing(s.callers[c])) ==> Fits(s, s.callers[c].j))
  }

  function Arrived(w: Worker, g: nat): bool { w.lap == g && (w.pc.Spin? || w.pc.Idle?) }

  function Count(ws: seq<Worker>, g: nat): (n: nat)
    ensures n <= |ws|
  {
    if ws == [] then 0 else Count(ws[1..], g) + if Arrived(ws[0], g) then 1 else 0
  }

  function Started(ws: seq<Worker>): (n: nat)
    ensures n <= |ws|
  {
    if ws == [] then 0 else Started(ws[1..]) + if ws[0].pc.Start? then 0 else 1
  }

  /** What the publication has stored so far. */
  ghost predicate StoresOk(s: Pool) {
    Holding(s) ==>
      match s.callers[s.holder.value]
      case SetChunks(j) => s.job == |s.jobs| + 1
      case SetLeft(j) => s.job == |s.jobs| + 1 && s.chunks == j.chunks
      case ClearArrived(j) => s.job == |s.jobs| + 1 && s.chunks == j.chunks && s.left == |s.workers|
      case Bump(j) => s.job == |s.jobs| + 1 && s.chunks == j.chunks && s.left == |s.workers| && s.arrived == 0
      case Begin => Published(s)
      case Run => Published(s)
      case Barrier => Published(s)
      case _ => true
  }

  ghost predicate Published(s: Pool) {
    && |s.jobs| > 0 && s.job == |s.jobs| && s.chunks == s.jobs[|s.jobs| - 1].chunks
    && s.left == |s.workers| && s.arrived == Count(s.workers, |s.jobs|)
  }

  ghost predicate PhaseOk(s: Pool) {
    && (s.stop <==> s.phase != Alive)
    && s.gen == (|s.jobs| + if s.phase.Joining? || s.phase.Joined? then 1 else 0) % WORD
    && (s.phase != Alive ==> forall c | 0 <= c < |s.callers| :: s.callers[c] == Out)
  }

  /** Indices are drawn once each: `taken[k]` is the worker with index `k + 1`. */
  ghost predicate IndexOk(s: Pool, i: nat)
    requires i < |s.workers|
  {
    var w := s.workers[i];
    !w.pc.Start? ==> 1 <= w.index <= |s.taken| && s.taken[w.index - 1] == i
  }

  ghost predicate TakenOk(s: Pool) {
    && s.next == |s.taken| == Started(s.workers)
    && (forall k | 0 <= k < |s.taken| ::
          s.taken[k] < |s.workers| && !s.workers[s.taken[k]].pc.Start? && s.workers[s.taken[k]].index == k + 1)
  }

  /** Where worker `i` may be. */
  ghost predicate PlaceOk(s: Pool, i: nat)
    requires i < |s.workers|
  {
    var w, g := s.workers[i], |s.jobs|;
    && w.seen == w.lap % WORD
    && (w.pc.Start? ==> w.lap == 0)
    && if InFlight(s) then
         || (w.lap + 1 == g && (w.pc.Start? || w.pc.Spin? || w.pc.Idle? || w.pc.Wake? || w.pc.See?))
         || (w.lap == g && !w.pc.Start? && Late(w.pc, g) && (w.pc.Enter? || w.pc.Body? ==> w.index < s.chunks))
       else
         w.lap == g && (w.pc.Start? || w.pc.Spin? || w.pc.Idle?
                        || (w.pc.Exit? && s.stop) || (w.pc.Wake? && s.phase != Alive && s.phase != Stopping))
  }

  ghost predicate Late(pc: WorkerPc, g: nat) {
    pc.Claim? || pc.Enter? || pc == Body(g) || pc.Arrive? || pc.Spin? || pc.Idle?
  }

  function Bit(b: bool): nat { if b then 1 else 0 }

  /** Has this worker's body of call `g` been entered, and left? */
  function Entered(w: Worker, g: nat): bool { w.lap == g && (w.pc.Body? || w.pc.Arrive? || w.pc.Spin? || w.pc.Idle?) }
  function Left(w: Worker, g: nat): bool { w.lap == g && (w.pc.Arrive? || w.pc.Spin? || w.pc.Idle?) }

  /** How often chunk `c` of the call in flight has been entered and left. */
  ghost predicate FlightHistory(s: Pool, c: nat)
    requires |s.jobs| > 0
  {
    var g, pc := |s.jobs|, if Holding(s) then s.callers[s.holder.value] else Out;
    if c >= s.jobs[g - 1].chunks then s.begun[(g, c)] == s.ended[(g, c)] == 0
    else if c == 0 then s.begun[(g, 0)] == Bit(!pc.Begin?) && s.ended[(g, 0)] == Bit(pc.Barrier?)
    else if c > |s.taken| then s.begun[(g, c)] == s.ended[(g, c)] == 0
    else
      && s.taken[c - 1] < |s.workers|
      && s.begun[(g, c)] == Bit(Entered(s.workers[s.taken[c - 1]], g))
      && s.ended[(g, c)] == Bit(Left(s.workers[s.taken[c - 1]], g))
  }

  /** Call `g` ran each of its chunks once, and nothing else. */
  ghost predicate RanOnce(s: Pool, g: nat, c: nat)
    requires 1 <= g <= |s.jobs|
  {
    s.begun[(g, c)] == s.ended[(g, c)] == Bit(c < s.jobs[g - 1].chunks)
  }

  ghost predicate HistoryOk(s: Pool) {
    && (forall g: nat, c: nat | g == 0 || g > |s.jobs| :: s.begun[(g, c)] == s.ended[(g, c)] == 0)
    && (forall g: nat, c: nat | 1 <= g <= |s.jobs| && (g < |s.jobs| || !InFlight(s)) :: RanOnce(s, g, c))
    && (InFlight(s) && |s.jobs| > 0 ==> forall c: nat :: FlightHistory(s, c))
  }

  ghost predicate WorkersOk(s: Pool) {
    forall i | 0 <= i < |s.workers| :: IndexOk(s, i) && PlaceOk(s, i)
  }

  ghost predicate Inv(s: Pool) {
    LockOk(s) && JobsOk(s) && StoresOk(s) && PhaseOk(s) && TakenOk(s) && WorkersOk(s) && HistoryOk(s)
  }

  // ----- counting -----

  lemma {:induction false} CountUpdate(ws: seq<Worker>, i: nat, w: Worker, g: nat)
    requires i < |ws|
    ensures Count(ws[i := w], g) + Bit(Arrived(ws[i], g)) == Count(ws, g) + Bit(Arrived(w, g))
    ensures Started(ws[i := w]) + Bit(!ws[i].pc.Start?) == Started(ws) + Bit(!w.pc.Start?)
  {
    var us := ws[i := w];
    if i == 0 {
      assert us[1..] == ws[1..];
    } else {
      assert us[1..] == ws[1..][i - 1 := w];
      CountUpdate(ws[1..], i - 1, w, g);
    }
  }

  lemma {:induction false} CountFull(ws: seq<Worker>, g: nat)
    ensures Count(ws, g) == |ws| <==> forall i | 0 <= i < |ws| :: Arrived(ws[i], g)
    ensures Started(ws) == |ws| <==> forall i | 0 <= i < |ws| :: !ws[i].pc.Start?
    ensures (forall i | 0 <= i < |ws| :: !Arrived(ws[i], g)) ==> Count(ws, g) == 0
  {
    if ws != [] {
      CountFull(ws[1..], g);
      assert forall i | 0 <= i < |ws[1..]| :: ws[1..][i] == ws[i + 1];
      assert forall i | 1 <= i < |ws| :: ws[i] == ws[1..][i - 1];
    }
  }

  lemma {:induction false} AllStart(ws: seq<Worker>)
    requires forall i | 0 <= i < |ws| :: ws[i].pc.Start?
    ensures Started(ws) == 0
  {
    if ws != [] { AllStart(ws[1..]); }
  }

  lemma InitInv(s: Pool)
    requires Init(s)
    ensures Inv(s)
  {
    AllStart(s.workers);
  }

  // ----- every step keeps the invariant -----

  /** One generation behind is told apart from up to date, even as the word wraps. */
  lemma LagIsVisible(g: nat)
    ensures g % WORD != (g + 1) % WORD
  {
  }

  lemma WorkerFrame(s: Pool, i: nat)
    requires i < |s.workers|
    ensures var s' := WorkerStep(s, i);
            && s'.callers == s.callers && s'.holder == s.holder && s'.jobs == s.jobs && s'.gen == s.gen
            && s'.stop == s.stop && s'.phase == s.phase && s'.job == s.job && s'.chunks == s.chunks
            && s'.left == s.left && |s'.workers| == |s.workers|
            && s'.workers == s.workers[i := s'.workers[i]]
            && (InFlight(s') <==> InFlight(s))
  {
  }

  lemma FlightMeans(s: Pool)
    requires StoresOk(s) && InFlight(s)
    ensures Published(s)
  {
  }

  lemma WorkerKeepsIndex(s: Pool, i: nat)
    requires TakenOk(s) && i < |s.workers| && IndexOk(s, i)
    ensures IndexOk(WorkerStep(s, i), i)
  {
  }

  lemma WorkerMoves(s: Pool, i: nat)
    requires StoresOk(s) && PhaseOk(s) && i < |s.workers| && PlaceOk(s, i)
    ensures PlaceOk(WorkerStep(s, i), i)
  {
    WorkerFrame(s, i);
    if InFlight(s) { FlightMeans(s); LagIsVisible(|s.jobs| - 1); }
    LagIsVisible(|s.jobs|);
  }

  lemma WorkerKeepsOthers(s: Pool, i: nat)
    requires Inv(s) && i < |s.workers|
    ensures WorkersOk(WorkerStep(s, i))
  {
    var s' := WorkerStep(s, i);
    WorkerFrame(s, i);
    assert PlaceOk(s, i) && IndexOk(s, i);
    WorkerMoves(s, i);
    WorkerKeepsIndex(s, i);
    forall k | 0 <= k < |s'.workers| && k != i
      ensures IndexOk(s', k) && PlaceOk(s', k)
    {
      assert s'.workers[k] == s.workers[k] && IndexOk(s, k) && PlaceOk(s, k);
    }
  }

  lemma WorkerKeepsTaken(s: Pool, i: nat)
    requires TakenOk(s) && i < |s.workers| && IndexOk(s, i)
    ensures TakenOk(WorkerStep(s, i))
  {
    var s' := WorkerStep(s, i);
    WorkerFrame(s, i);
    CountUpdate(s.workers, i, s'.workers[i], |s.jobs|);
    forall k | 0 <= k < |s'.taken|
      ensures s'.taken[k] < |s'.workers| && !s'.workers[s'.taken[k]].pc.Start?
      ensures s'.workers[s'.taken[k]].index == k + 1
    {
      if k < |s.taken| && s.taken[k] != i { assert s'.workers[s.taken[k]] == s.workers[s.taken[k]]; }
    }
  }

  lemma WorkerKeepsStores(s: Pool, i: nat)
    requires Inv(s) && i < |s.workers|
    ensures LockOk(WorkerStep(s, i)) && JobsOk(WorkerStep(s, i)) && PhaseOk(WorkerStep(s, i))
    ensures StoresOk(WorkerStep(s, i))
  {
    var s' := WorkerStep(s, i);
    WorkerFrame(s, i);
    assert PlaceOk(s, i);
    if InFlight(s) {
      FlightMeans(s);
      LagIsVisible(|s.jobs| - 1);
      CountUpdate(s.workers, i, s'.workers[i], |s.jobs|);
    }
  }

  lemma WorkerKeepsFlight(s: Pool, i: nat, c: nat)
    requires StoresOk(s) && TakenOk(s) && InFlight(s) && i < |s.workers| && PlaceOk(s, i) && IndexOk(s, i)
    requires |s.jobs| > 0 && PhaseOk(s) && LockOk(s) && FlightHistory(s, c)
    ensures FlightHistory(WorkerStep(s, i), c)
  {
    var s' := WorkerStep(s, i);
    WorkerFrame(s, i);
    FlightMeans(s);
    LagIsVisible(|s.jobs| - 1);
    WorkerKeepsTaken(s, i);
    if 1 <= c <= |s.taken| && s.taken[c - 1] != i {
      assert s'.workers[s.taken[c - 1]] == s.workers[s.taken[c - 1]];
    }
  }

  lemma WorkerKeepsHistory(s: Pool, i: nat)
    requires Inv(s) && i < |s.workers|
    ensures HistoryOk(WorkerStep(s, i))
  {
    var s', g := WorkerStep(s, i), |s.jobs|;
    WorkerFrame(s, i);
    assert PlaceOk(s, i);
    if InFlight(s) {
      FlightMeans(s);
      assert IndexOk(s, i);
      forall c: nat ensures FlightHistory(s', c) { WorkerKeepsFlight(s, i, c); }
    }
    forall g': nat, c: nat | g' != g || !InFlight(s)
      ensures s'.begun[(g', c)] == s.begun[(g', c)] && s'.ended[(g', c)] == s.ended[(g', c)]
    {
    }
    forall g': nat, c: nat | 1 <= g' <= g && (g' < g || !InFlight(s))
      ensures RanOnce(s', g', c)
    {
      assert RanOnce(s, g', c);
    }
  }

  lemma WorkerKeeps(s: Pool, i: nat)
    requires Inv(s) && i < |s.workers|
    ensures Inv(WorkerStep(s, i))
  {
    assert IndexOk(s, i);
    WorkerKeepsOthers(s, i);
    WorkerKeepsTaken(s, i);
    WorkerKeepsStores(s, i);
    WorkerKeepsHistory(s, i);
  }

  /** What `run_ranges` may be asked for: more than one range, and no more than there
      are threads or units. */
  ghost predicate Asked(s: Pool, ask: Job) { 1 < ask.chunks ==> Fits(s, ask) }

  lemma CallerKeepsLock(s: Pool, c: nat, ask: Job)
    requires LockOk(s) && c < |s.callers|
    ensures LockOk(CallerMove(s, c, ask))
  {
  }

  /** A caller's step moves only the caller. */
  lemma CallerFrame(s: Pool, c: nat, ask: Job)
    requires c < |s.callers|
    ensures var s' := CallerMove(s, c, ask);
            && s'.workers == s.workers && |s'.callers| == |s.callers| && s'.callers == s.callers[c := s'.callers[c]]
            && s'.jobs == (if s.callers[c].Bump? then s.jobs + [s.callers[c].j] else s.jobs)
  {
  }

  /** And it carries the caller's request along. */
  lemma CallerCarries(s: Pool, c: nat, ask: Job)
    requires c < |s.callers|
    ensures |CallerMove(s, c, ask).callers| == |s.callers|
    ensures var pc, pc' := s.callers[c], CallerMove(s, c, ask).callers[c];
            && (pc'.Lock? ==> (pc'.j == ask && 1 < ask.chunks) || pc' == pc)
            && (Writing(pc') ==> (pc.Lock? || Writing(pc)) && pc'.j == pc.j)
  {
  }

  lemma CallerKeepsJobs(s: Pool, c: nat, ask: Job)
    requires JobsOk(s) && c < |s.callers| && Asked(s, ask)
    ensures JobsOk(CallerMove(s, c, ask))
  {
    CallerFrame(s, c, ask);
    CallerCarries(s, c, ask);
    JobsCarried(s, CallerMove(s, c, ask), c, ask);
  }

  lemma JobsCarried(s: Pool, s': Pool, c: nat, ask: Job)
    requires JobsOk(s) && c < |s.callers| == |s'.callers| && Asked(s, ask)
    requires |s'.workers| == |s.workers| && s'.callers == s.callers[c := s'.callers[c]]
    requires s'.jobs == if s.callers[c].Bump? then s.jobs + [s.callers[c].j] else s.jobs
    requires s'.callers[c].Lock? ==> (s'.callers[c].j == ask && 1 < ask.chunks) || s'.callers[c] == s.callers[c]
    requires Writing(s'.callers[c]) ==> (s.callers[c].Lock? || Writing(s.callers[c])) && s'.callers[c].j == s.callers[c].j
    ensures JobsOk(s')
  {
    forall g | 0 <= g < |s'.jobs| ensures Fits(s', s'.jobs[g]) {
      if g < |s.jobs| { assert s'.jobs[g] == s.jobs[g]; }
    }
    forall d | 0 <= d < |s'.callers| && (s'.callers[d].Lock? || Writing(s'.callers[d]))
      ensures Fits(s', s'.callers[d].j)
    {
      if d != c { assert s'.callers[d] == s.callers[d]; }
    }
  }

  lemma CallerKeepsPhase(s: Pool, c: nat, ask: Job)
    requires Inv(s) && c < |s.callers| && Asked(s, ask)
    ensures PhaseOk(CallerMove(s, c, ask))
    ensures CallerMove(s, c, ask).phase == s.phase && CallerMove(s, c, ask).stop == s.stop
  {
    NextWord(|s.jobs|);
  }

  lemma NextWord(g: nat)
    ensures (g % WORD + 1) % WORD == (g + 1) % WORD
  {
    Arith.DivMod(g, WORD);
    Arith.DivMod(g % WORD + 1, WORD);
    Arith.ModShift(g % WORD + 1, WORD, g / WORD);
  }

  /** Outside a flight no worker is behind, and none is on its way to a body. */
  lemma Quiet(s: Pool)
    requires Inv(s) && !InFlight(s)
    ensures forall i | 0 <= i < |s.workers| ::
              s.workers[i].lap == |s.jobs| && !s.workers[i].pc.See? && !s.workers[i].pc.Claim?
              && !s.workers[i].pc.Enter? && !s.workers[i].pc.Body? && !s.workers[i].pc.Arrive?
    ensures Count(s.workers, |s.jobs| + 1) == 0
  {
    forall i | 0 <= i < |s.workers|
      ensures s.workers[i].lap == |s.jobs| && !s.workers[i].pc.See? && !s.workers[i].pc.Claim?
              && !s.workers[i].pc.Enter? && !s.workers[i].pc.Body? && !s.workers[i].pc.Arrive?
    {
      assert PlaceOk(s, i);
    }
    CountFull(s.workers, |s.jobs| + 1);
  }

  /** A full count at the barrier means that every worker has left the job. */
  lemma BarrierMeans(s: Pool)
    requires Inv(s) && InFlight(s) && s.arrived == s.left
    ensures forall i | 0 <= i < |s.workers| :: Arrived(s.workers[i], |s.jobs|)
    ensures |s.taken| == |s.workers|
  {
    FlightMeans(s);
    CountFull(s.workers, |s.jobs|);
    assert forall i | 0 <= i < |s.workers| :: !s.workers[i].pc.Start?;
  }

  lemma CallerKeepsPlaces(s: Pool, c: nat, ask: Job)
    requires Inv(s) && c < |s.callers| && Asked(s, ask)
    ensures WorkersOk(CallerMove(s, c, ask))
  {
    var s' := CallerMove(s, c, ask);
    assert s'.workers == s.workers && s'.taken == s.taken && s'.stop == s.stop && s'.phase == s.phase;
    if !InFlight(s) { Quiet(s); } else if s.arrived == s.left { BarrierMeans(s); }
    forall i | 0 <= i < |s'.workers|
      ensures IndexOk(s', i) && PlaceOk(s', i)
    {
      assert IndexOk(s, i) && PlaceOk(s, i);
    }
  }

  lemma CallerKeepsTaken(s: Pool, c: nat, ask: Job)
    requires TakenOk(s) && c < |s.callers|
    ensures TakenOk(CallerMove(s, c, ask))
  {
  }

  lemma CallerKeepsStores(s: Pool, c: nat, ask: Job)
    requires Inv(s) && c < |s.callers| && Asked(s, ask)
    ensures StoresOk(CallerMove(s, c, ask))
  {
    var s' := CallerMove(s, c, ask);
    assert s'.workers == s.workers && (s.callers[c].Bump? || s'.jobs == s.jobs);
    if s.callers[c].Bump? { Quiet(s); }
  }

  lemma CallerKeepsFlight(s: Pool, c: nat, ask: Job, k: nat)
    requires Inv(s) && c < |s.callers| && Asked(s, ask) && InFlight(CallerMove(s, c, ask))
    ensures var s' := CallerMove(s, c, ask); |s'.jobs| > 0 && FlightHistory(s', k)
  {
    var s' := CallerMove(s, c, ask);
    if InFlight(s) {
      FlightMeans(s);
      assert FlightHistory(s, k);
    } else {
      Quiet(s);
      assert s.begun[(|s.jobs| + 1, k)] == s.ended[(|s.jobs| + 1, k)] == 0;
    }
  }

  lemma CallerKeepsRan(s: Pool, c: nat, ask: Job, g: nat, k: nat)
    requires Inv(s) && c < |s.callers| && Asked(s, ask)
    requires var s' := CallerMove(s, c, ask); 1 <= g <= |s'.jobs| && (g < |s'.jobs| || !InFlight(s'))
    ensures RanOnce(CallerMove(s, c, ask), g, k)
  {
    var s' := CallerMove(s, c, ask);
    if g <= |s.jobs| {
      if InFlight(s) {
        FlightMeans(s);
        if g == |s.jobs| {
          assert FlightHistory(s, k) && Fits(s, s.jobs[g - 1]);
          BarrierMeans(s);
        } else {
          assert RanOnce(s, g, k);
        }
      } else {
        assert RanOnce(s, g, k);
      }
    }
  }

  lemma CallerKeepsHistory(s: Pool, c: nat, ask: Job)
    requires Inv(s) && c < |s.callers| && Asked(s, ask)
    ensures HistoryOk(CallerMove(s, c, ask))
  {
    var s' := CallerMove(s, c, ask);
    if InFlight(s) { FlightMeans(s); }
    if InFlight(s') {
      forall k: nat ensures |s'.jobs| > 0 && FlightHistory(s', k) { CallerKeepsFlight(s, c, ask, k); }
    }
    forall g: nat, k: nat | 1 <= g <= |s'.jobs| && (g < |s'.jobs| || !InFlight(s'))
      ensures RanOnce(s', g, k)
    {
      CallerKeepsRan(s, c, ask, g, k);
    }
  }

  lemma CallerKeeps(s: Pool, c: nat, ask: Job)
    requires Inv(s) && c < |s.callers| && Asked(s, ask)
    ensures Inv(CallerMove(s, c, ask))
  {
    CallerKeepsLock(s, c, ask);
    CallerKeepsJobs(s, c, ask);
    CallerKeepsPhase(s, c, ask);
    CallerKeepsPlaces(s, c, ask);
    CallerKeepsTaken(s, c, ask);
    CallerKeepsStores(s, c, ask);
    CallerKeepsHistory(s, c, ask);
  }

  lemma DestructorFrame(s: Pool)
    requires LockOk(s)
    ensures var s' := DestructorStep(s);
            && s'.workers == s.workers && s'.callers == s.callers && s'.holder == s.holder && s'.jobs == s.jobs
            && s'.begun == s.begun && s'.ended == s.ended && s'.taken == s.taken && s'.next == s.next
            && s'.job == s.job && s'.chunks == s.chunks && s'.left == s.left && s'.arrived == s.arrived
            && (InFlight(s') <==> InFlight(s)) && (s.stop ==> s'.stop)
            && (s.phase != Alive ==> s'.phase != Alive) && (s.phase != Alive && s.phase != Stopping ==> s'.phase != Stopping)
  {
  }

  lemma DestructorKeepsPlaces(s: Pool)
    requires Inv(s)
    ensures WorkersOk(DestructorStep(s))
  {
    var s' := DestructorStep(s);
    DestructorFrame(s);
    forall i | 0 <= i < |s'.workers|
      ensures IndexOk(s', i) && PlaceOk(s', i)
    {
      assert IndexOk(s, i) && PlaceOk(s, i);
    }
  }

  lemma DestructorKeepsHistory(s: Pool)
    requires Inv(s)
    ensures HistoryOk(DestructorStep(s))
  {
    var s' := DestructorStep(s);
    DestructorFrame(s);
    forall g: nat, c: nat | 1 <= g <= |s'.jobs| && (g < |s'.jobs| || !InFlight(s'))
      ensures RanOnce(s', g, c)
    {
      assert RanOnce(s, g, c);
    }
    forall c: nat | InFlight(s') && |s'.jobs| > 0 ensures FlightHistory(s', c) {
      assert FlightHistory(s, c);
    }
  }

  lemma DestructorKeepsPhase(s: Pool)
    requires LockOk(s) && JobsOk(s) && StoresOk(s) && PhaseOk(s) && TakenOk(s)
    ensures var s' := DestructorStep(s); LockOk(s') && JobsOk(s') && StoresOk(s') && PhaseOk(s') && TakenOk(s')
  {
    NextWord(|s.jobs|);
  }

  lemma DestructorKeeps(s: Pool)
    requires Inv(s)
    ensures Inv(DestructorStep(s))
  {
    DestructorKeepsPlaces(s);
    DestructorKeepsHistory(s);
    DestructorKeepsPhase(s);
  }

  lemma StepKeeps(s: Pool, t: Thread)
    requires Inv(s) && Present(s, t)
    ensures Inv(Step(s, t))
  {
    match t
    case AsWorker(i) => WorkerKeeps(s, i);
    case AsCaller(c, total, grain) => CallerKeeps(s, c, Shape(total, grain, |s.workers| + 1));
    case AsDestructor => DestructorKeeps(s);
  }

  // ----- safety over every run -----

  /** What a reader of the pool may rely on, in every interleaving. */
  ghost predicate Safe(s: Pool) {
    // no worker reads job_ or chunks_, or counts an arrival, while a caller stores them
    && (forall c, i | 0 <= c < |s.callers| && Writing(s.callers[c]) && 0 <= i < |s.workers| ::
          var pc := s.workers[i].pc; !pc.Claim? && !pc.Enter? && !pc.Body? && !pc.Arrive?)
    // one call at a time
    && (forall c, d | 0 <= c < d < |s.callers| ::
          Outside(s.callers[c]) || Outside(s.callers[d]))
    // no worker is ever more than one generation behind
    && (forall i | 0 <= i < |s.workers| :: s.workers[i].lap <= |s.jobs| <= s.workers[i].lap + 1)
    // a body runs only while the caller whose frame it captured is still in the call
    && (forall i | 0 <= i < |s.workers| && s.workers[i].pc.Body? ::
          s.workers[i].pc.job == |s.jobs| && InFlight(s) && !s.stop)
    // a returning caller leaves no worker in its job
    && (forall c, i | 0 <= c < |s.callers| && s.callers[c].Unlock? && 0 <= i < |s.workers| ::
          s.workers[i].lap == |s.jobs| && (s.workers[i].pc.Spin? || s.workers[i].pc.Idle?))
    // each finished call ran each of its chunks once, and no later step adds to it
    && (forall g: nat, k: nat | 1 <= g <= |s.jobs| && (g < |s.jobs| || !InFlight(s)) :: RanOnce(s, g, k))
    // no body of a call that was never published
    && (forall g: nat, k: nat | g == 0 || g > |s.jobs| :: s.begun[(g, k)] == 0)
  }

  /** At the moment of return nobody has moved since the barrier opened. */
  ghost predicate ReturnOk(s: Pool) {
    forall c, i | 0 <= c < |s.callers| && s.callers[c].Unlock? && 0 <= i < |s.workers| ::
      Arrived(s.workers[i], |s.jobs|)
  }

  lemma WorkerReturn(s: Pool, w: nat)
    requires Inv(s) && ReturnOk(s) && w < |s.workers|
    ensures ReturnOk(WorkerStep(s, w))
  {
    WorkerFrame(s, w);
    LagIsVisible(|s.jobs|);
    var s' := WorkerStep(s, w);
    forall c, i | 0 <= c < |s'.callers| && s'.callers[c].Unlock? && 0 <= i < |s'.workers|
      ensures Arrived(s'.workers[i], |s'.jobs|)
    {
      assert PlaceOk(s, i) && Arrived(s.workers[i], |s.jobs|);
    }
  }

  lemma CallerReturn(s: Pool, c: nat, ask: Job)
    requires Inv(s) && ReturnOk(s) && c < |s.callers|
    ensures ReturnOk(CallerMove(s, c, ask))
  {
    CallerFrame(s, c, ask);
    if InFlight(s) && s.arrived == s.left { BarrierMeans(s); }
  }

  lemma ReturnKept(s: Pool, t: Thread)
    requires Inv(s) && ReturnOk(s) && Present(s, t)
    ensures ReturnOk(Step(s, t))
  {
    match t
    case AsWorker(i) => WorkerReturn(s, i);
    case AsCaller(c, total, grain) => CallerReturn(s, c, Shape(total, grain, |s.workers| + 1));
    case AsDestructor => DestructorFrame(s);
  }

  lemma InvSafe(s: Pool)
    requires Inv(s) && ReturnOk(s)
    ensures Safe(s)
  {
    if !InFlight(s) { Quiet(s); }
    forall i | 0 <= i < |s.workers|
      ensures s.workers[i].lap <= |s.jobs| <= s.workers[i].lap + 1
      ensures s.workers[i].pc.Body? ==> s.workers[i].pc.job == |s.jobs| && InFlight(s) && !s.stop
    {
      assert PlaceOk(s, i);
    }
  }

  /** `run[n + 1]` is `run[n]` after thread `who[n]` moved. */
  ghost predicate IsRun(run: seq<Pool>, who: seq<Thread>) {
    && |run| == |who| + 1 && Init(run[0])
    && (forall n | 0 <= n < |who| :: Present(run[n], who[n]) && run[n + 1] == Step(run[n], who[n]))
  }

  /** Main result: every state of every run is safe, for any number of workers
      and callers. */
  lemma {:induction false} EveryRunIsSafe(run: seq<Pool>, who: seq<Thread>)
    requires IsRun(run, who)
    ensures forall n | 0 <= n < |run| :: Inv(run[n]) && ReturnOk(run[n]) && Safe(run[n])
    decreases |who|
  {
    if who == [] {
      InitInv(run[0]);
      InvSafe(run[0]);
    } else {
      var m := |who| - 1;
      EveryRunIsSafe(run[..m + 1], who[..m]);
      assert run[..m + 1][m] == run[m];
      StepKeeps(run[m], who[m]);
      ReturnKept(run[m], who[m]);
      InvSafe(run[m + 1]);
      forall n | 0 <= n <= m ensures Inv(run[n]) && ReturnOk(run[n]) && Safe(run[n]) {
        assert run[..m + 1][n] == run[n];
      }
    }
  }

  /** When a call returns, each unit of `[0, total)` lies in the range of exactly
      one chunk, and that chunk's body was entered once and left once. */
  lemma ReturnCoversEveryUnit(run: seq<Pool>, who: seq<Thread>, n: nat, c: nat, x: nat)
    requires IsRun(run, who) && n < |run| && c < |run[n].callers| && run[n].callers[c].Unlock?
    requires |run[n].jobs| > 0 && x < run[n].jobs[|run[n].jobs| - 1].total
    ensures var s := run[n]; var g := |s.jobs|; var j := s.jobs[g - 1];
            && 1 <= j.chunks
            && var k := ChunkOf(j.total, j.chunks, x);
               && 0 <= k < j.chunks && s.begun[(g, k)] == s.ended[(g, k)] == 1
               && (forall k': nat | k' < j.chunks ::
                     Lo(j.total, j.chunks, k') <= x < Lo(j.total, j.chunks, k' + 1) <==> k' == k)
  {
    EveryRunIsSafe(run, who);
    var s := run[n];
    var g := |s.jobs|;
    assert Fits(s, s.jobs[g - 1]);
    RangesTile(s.jobs[g - 1].total, s.jobs[g - 1].chunks);
    assert RanOnce(s, g, ChunkOf(s.jobs[g - 1].total, s.jobs[g - 1].chunks, x));
  }
}
