/** Which calls the pool has been asked for, and what became of each: kept beside the pool
    from the schedule alone, so that no call can go missing. */
module PoolLedger {
  import opened Partition
  import opened SpinPool

  /** `asked` lists every call with something to run, in the order the callers made them;
      `cur[c]` is the number of caller `c`'s last one; `pubs` are those the pool was given,
      and `done` those that are over, both in order. */
  datatype Ledger = Ledger(pool: Pool, cur: seq<nat>, asked: seq<Job>, pubs: seq<nat>, done: seq<nat>)

  /** A caller outside, in a live pool, asks for `total` units. */
  predicate Asks(s: Pool, t: Thread)
    requires Present(s, t)
  {
    t.AsCaller? && s.callers[t.c] == Out && s.phase == Alive && t.total > 0
  }

  /** What it asks for. */
  function Wanted(s: Pool, t: Thread): Job
    requires t.AsCaller?
  {
    Shape(t.total, t.grain, |s.workers| + 1)
  }

  /** Its call is over with this step: it ran the range itself, or finds every worker
      arrived. */
  predicate Finishes(s: Pool, t: Thread)
    requires Present(s, t)
  {
    t.AsCaller? && (s.callers[t.c].Inline? || (s.callers[t.c].Barrier? && s.arrived == s.left))
  }

  function LedgerStep(l: Ledger, t: Thread): Ledger
    requires Present(l.pool, t) && |l.cur| == |l.pool.callers|
  {
    var s := l.pool;
    if Asks(s, t) then
      l.(pool := Step(s, t), cur := l.cur[t.c := |l.asked|], asked := l.asked + [Wanted(s, t)])
    else if t.AsCaller? && s.callers[t.c].Bump? then
      l.(pool := Step(s, t), pubs := l.pubs + [l.cur[t.c]])
    else if Finishes(s, t) then
      l.(pool := Step(s, t), done := l.done + [l.cur[t.c]])
    else
      l.(pool := Step(s, t))
  }

  // ----- the books -----

  /** Inside a call that is not over. */
  predicate Busy(pc: CallerPc) { !pc.Out? && !pc.Unlock? }

  /** The request a caller carries is the one in the books. */
  ghost predicate CurOk(pc: CallerPc, id: nat, asked: seq<Job>, pubs: seq<nat>) {
    Busy(pc) ==>
      && id < |asked|
      && (pc.Inline? ==> pc.j == asked[id] && asked[id].chunks == 1)
      && (pc.Lock? || Writing(pc) ==> pc.j == asked[id] && asked[id].chunks > 1 && id !in pubs)
      && (Flying(pc) ==> |pubs| > 0 && id == pubs[|pubs| - 1])
  }

  /** Job by job, what the pool was given is what was asked for. */
  ghost predicate PubsOk(jobs: seq<Job>, asked: seq<Job>, pubs: seq<nat>) {
    && |pubs| == |jobs| && Distinct(pubs)
    && forall g | 0 <= g < |pubs| :: pubs[g] < |asked| && asked[pubs[g]].chunks > 1 && jobs[g] == asked[pubs[g]]
  }

  /** A call that is over was asked for, is over once, and went through the pool if it was
      cut into several ranges. */
  ghost predicate DoneOk(asked: seq<Job>, pubs: seq<nat>, done: seq<nat>) {
    && Distinct(done)
    && forall id | id in done :: id < |asked| && (asked[id].chunks > 1 ==> id in pubs)
  }

  predicate Mine(callers: seq<CallerPc>, cur: seq<nat>, c: nat, id: nat) {
    c < |callers| == |cur| && Busy(callers[c]) && cur[c] == id
  }

  /** Every call asked for is over, or a caller is in it. */
  ghost predicate Covered(callers: seq<CallerPc>, cur: seq<nat>, asked: seq<Job>, done: seq<nat>) {
    forall id: nat | id < |asked| :: id in done || exists c: nat :: Mine(callers, cur, c, id)
  }

  ghost predicate BooksOk(callers: seq<CallerPc>, jobs: seq<Job>, cur: seq<nat>, asked: seq<Job>, pubs: seq<nat>, done: seq<nat>) {
    && |cur| == |callers| && PubsOk(jobs, asked, pubs) && DoneOk(asked, pubs, done) && Covered(callers, cur, asked, done)
    && (forall c | 0 <= c < |callers| :: CurOk(callers[c], cur[c], asked, pubs))
    && (forall c, d | 0 <= c < d < |callers| && Busy(callers[c]) && Busy(callers[d]) :: cur[c] != cur[d])
    && (forall c | 0 <= c < |callers| && Busy(callers[c]) :: cur[c] !in done)
    && forall id | 0 <= id < |asked| :: 1 <= asked[id].chunks <= asked[id].total
  }

  ghost predicate LedgerOk(l: Ledger) {
    Inv(l.pool) && BooksOk(l.pool.callers, l.pool.jobs, l.cur, l.asked, l.pubs, l.done)
  }

  // ----- each step keeps the books -----

  /** A caller outside asks. */
  lemma BooksAsk(callers: seq<CallerPc>, jobs: seq<Job>, cur: seq<nat>, asked: seq<Job>, pubs: seq<nat>, done: seq<nat>,
                 c: nat, pc: CallerPc, j: Job)
    requires BooksOk(callers, jobs, cur, asked, pubs, done) && c < |callers| && callers[c].Out?
    requires 1 <= j.chunks <= j.total && pc == if j.chunks == 1 then Inline(j) else Lock(j)
    ensures BooksOk(callers[c := pc], jobs, cur[c := |asked|], asked + [j], pubs, done)
  {
    var callers', cur', asked', n := callers[c := pc], cur[c := |asked|], asked + [j], |asked|;
    assert n !in pubs;
    forall d | 0 <= d < |callers'| ensures CurOk(callers'[d], cur'[d], asked', pubs) {
      assert CurOk(callers[d], cur[d], asked, pubs);
    }
    forall id: nat | id < |asked'| ensures id in done || exists d: nat :: Mine(callers', cur', d, id) {
      if id == n {
        assert Mine(callers', cur', c, id);
      } else if id !in done {
        var d: nat :| Mine(callers, cur, d, id);
        assert Mine(callers', cur', d, id);
      }
    }
  }

  /** A caller goes on inside its call, or leaves one that is over. */
  lemma BooksMove(callers: seq<CallerPc>, jobs: seq<Job>, cur: seq<nat>, asked: seq<Job>, pubs: seq<nat>, done: seq<nat>,
                  c: nat, pc: CallerPc)
    requires BooksOk(callers, jobs, cur, asked, pubs, done) && c < |callers|
    requires Busy(pc) == Busy(callers[c]) && CurOk(pc, cur[c], asked, pubs)
    ensures BooksOk(callers[c := pc], jobs, cur, asked, pubs, done)
  {
    var callers' := callers[c := pc];
    forall id: nat | id < |asked| ensures id in done || exists d: nat :: Mine(callers', cur, d, id) {
      if id !in done {
        var d: nat :| Mine(callers, cur, d, id);
        assert Mine(callers', cur, d, id);
      }
    }
  }

  /** A caller gives its call to the pool; nobody else is in flight. */
  lemma BooksPublish(callers: seq<CallerPc>, jobs: seq<Job>, cur: seq<nat>, asked: seq<Job>, pubs: seq<nat>, done: seq<nat>, c: nat)
    requires BooksOk(callers, jobs, cur, asked, pubs, done) && c < |callers| && callers[c].Bump?
    requires forall d | 0 <= d < |callers| && d != c :: Outside(callers[d])
    ensures BooksOk(callers[c := Begin], jobs + [callers[c].j], cur, asked, pubs + [cur[c]], done)
  {
    var callers', jobs', pubs' := callers[c := Begin], jobs + [callers[c].j], pubs + [cur[c]];
    assert CurOk(callers[c], cur[c], asked, pubs);
    forall d | 0 <= d < |callers'| ensures CurOk(callers'[d], cur[d], asked, pubs') {
      assert CurOk(callers[d], cur[d], asked, pubs);
    }
    forall id: nat | id < |asked| ensures id in done || exists d: nat :: Mine(callers', cur, d, id) {
      if id !in done {
        var d: nat :| Mine(callers, cur, d, id);
        assert Mine(callers', cur, d, id);
      }
    }
  }

  /** A call is over. */
  lemma BooksFinish(callers: seq<CallerPc>, jobs: seq<Job>, cur: seq<nat>, asked: seq<Job>, pubs: seq<nat>, done: seq<nat>,
                    c: nat, pc: CallerPc)
    requires BooksOk(callers, jobs, cur, asked, pubs, done) && c < |callers| && !Busy(pc)
    requires callers[c].Inline? || callers[c].Barrier?
    ensures BooksOk(callers[c := pc], jobs, cur, asked, pubs, done + [cur[c]])
  {
    var callers', done', id := callers[c := pc], done + [cur[c]], cur[c];
    assert CurOk(callers[c], cur[c], asked, pubs);
    forall i: nat | i < |asked| ensures i in done' || exists d: nat :: Mine(callers', cur, d, i) {
      if i !in done' {
        var d: nat :| Mine(callers, cur, d, i);
        assert Mine(callers', cur, d, i);
      }
    }
    assert forall i | i in done' :: i in done || i == id;
  }

  lemma AskMoves(s: Pool, c: nat, total: int, grain: int)
    requires c < |s.callers| && s.callers[c].Out? && s.phase == Alive && total > 0
    ensures var j := Shape(total, grain, |s.workers| + 1);
            && 1 <= j.chunks <= j.total && j.total == total
            && Step(s, AsCaller(c, total, grain)) == s.(callers := s.callers[c := if j.chunks == 1 then Inline(j) else Lock(j)])
  {
  }

  /** Main result of a turn: an idle caller's turn in a live pool starts its call: nothing
      to run leaves the pool alone, one range is run by the caller, several wait for the
      lock. */
  lemma CallStarts(s: Pool, c: nat, total: int, grain: int)
    requires c < |s.callers| && s.callers[c].Out? && s.phase == Alive
    ensures var s', chunks := Step(s, AsCaller(c, total, grain)), PartitionSize(total, if grain <= 0 then 1 else grain, |s.workers| + 1);
            && (total <= 0 ==> s' == s)
            && (total > 0 && chunks == 1 ==> s' == s.(callers := s.callers[c := Inline(Job(total, 1))]))
            && (total > 0 && chunks != 1 ==> chunks > 1 && s' == s.(callers := s.callers[c := Lock(Job(total, chunks))]))
  {
    if total > 0 { AskMoves(s, c, total, grain); }
  }

  /** Where a caller inside a call goes. */
  lemma CallerGoesOn(s: Pool, c: nat, ask: Job)
    requires Inv(s) && c < |s.callers| && Asked(s, ask) && !s.callers[c].Out?
    ensures var pc, s' := s.callers[c], CallerMove(s, c, ask);
            var pc' := s'.callers[c];
            && s'.callers == s.callers[c := pc']
            && (pc.Bump? ==> pc' == Begin && s'.jobs == s.jobs + [pc.j])
            && (!pc.Bump? ==> s'.jobs == s.jobs)
            && (pc.Inline? || (pc.Barrier? && s.arrived == s.left) ==> !Busy(pc'))
            && (!pc.Bump? && !pc.Inline? && !(pc.Barrier? && s.arrived == s.left) ==> Busy(pc') == Busy(pc) && Onward(pc, pc'))
  {
    CallerFrame(s, c, ask);
  }

  /** On to a place of the same kind, with the same request. */
  predicate Onward(pc: CallerPc, pc': CallerPc) {
    && (pc'.Lock? ==> pc == pc')
    && (Busy(pc') ==> !pc'.Inline? && !pc.Inline?)
    && (pc'.SetJob? || pc'.SetChunks? || pc'.SetLeft? || pc'.ClearArrived? || pc'.Bump? ==>
          (pc.Lock? || pc.SetJob? || pc.SetChunks? || pc.SetLeft? || pc.ClearArrived?) && pc'.j == pc.j)
    && (pc'.Begin? || pc'.Run? || pc'.Barrier? ==> pc.Begin? || pc.Run? || pc.Barrier?)
  }

  lemma OnwardOk(pc: CallerPc, pc': CallerPc, id: nat, asked: seq<Job>, pubs: seq<nat>)
    requires CurOk(pc, id, asked, pubs) && Busy(pc) == Busy(pc') && Onward(pc, pc')
    ensures CurOk(pc', id, asked, pubs)
  {
  }

  lemma LedgerAsks(l: Ledger, t: Thread)
    requires LedgerOk(l) && Present(l.pool, t) && Asks(l.pool, t)
    ensures LedgerOk(LedgerStep(l, t))
  {
    var s, j := l.pool, Wanted(l.pool, t);
    AskMoves(s, t.c, t.total, t.grain);
    CallerKeeps(s, t.c, j);
    BooksAsk(s.callers, s.jobs, l.cur, l.asked, l.pubs, l.done, t.c, if j.chunks == 1 then Inline(j) else Lock(j), j);
  }

  lemma LedgerInside(l: Ledger, t: Thread)
    requires LedgerOk(l) && Present(l.pool, t) && t.AsCaller? && !l.pool.callers[t.c].Out?
    ensures LedgerOk(LedgerStep(l, t))
  {
    var s, c, ask := l.pool, t.c, Wanted(l.pool, t);
    CallerKeeps(s, c, ask);
    CallerGoesOn(s, c, ask);
    var pc, pc' := s.callers[c], CallerMove(s, c, ask).callers[c];
    assert CurOk(pc, l.cur[c], l.asked, l.pubs);
    if pc.Bump? {
      OthersOutside(s, c);
      BooksPublish(s.callers, s.jobs, l.cur, l.asked, l.pubs, l.done, c);
    } else if Finishes(s, t) {
      BooksFinish(s.callers, s.jobs, l.cur, l.asked, l.pubs, l.done, c, pc');
    } else {
      OnwardOk(pc, pc', l.cur[c], l.asked, l.pubs);
      BooksMove(s.callers, s.jobs, l.cur, l.asked, l.pubs, l.done, c, pc');
    }
  }

  lemma OthersOutside(s: Pool, c: nat)
    requires LockOk(s) && c < |s.callers| && !Outside(s.callers[c])
    ensures forall d | 0 <= d < |s.callers| && d != c :: Outside(s.callers[d])
  {
  }

  /** Every step keeps the books. */
  lemma LedgerKeeps(l: Ledger, t: Thread)
    requires LedgerOk(l) && Present(l.pool, t)
    ensures LedgerOk(LedgerStep(l, t))
  {
    match t
    case AsWorker(i) =>
      WorkerFrame(l.pool, i);
      WorkerKeeps(l.pool, i);
    case AsDestructor =>
      DestructorFrame(l.pool);
      DestructorKeeps(l.pool);
    case AsCaller(c, total, grain) =>
      if Asks(l.pool, t) {
        LedgerAsks(l, t);
      } else if l.pool.callers[c].Out? {
        assert Step(l.pool, t) == l.pool;
      } else {
        LedgerInside(l, t);
      }
  }

  // ----- every run -----

  ghost predicate IsLedgerRun(run: seq<Ledger>, who: seq<Thread>) {
    && |run| == |who| + 1 && Init(run[0].pool) && |run[0].cur| == |run[0].pool.callers|
    && run[0].asked == [] && run[0].pubs == [] && run[0].done == []
    && forall n | 0 <= n < |who| :: LedgerMoves(run[n], who[n], run[n + 1])
  }

  ghost predicate LedgerMoves(l: Ledger, t: Thread, l': Ledger) {
    Present(l.pool, t) && |l.cur| == |l.pool.callers| && l' == LedgerStep(l, t)
  }

  /** The calls with something to run that the first `n` turns ask for, read off the
      schedule. */
  ghost function AskedIn(run: seq<Ledger>, who: seq<Thread>, n: nat): seq<Job>
    requires n <= |who| <= |run|
  {
    if n == 0 then []
    else
      AskedIn(run, who, n - 1) + NewCall(run[n - 1].pool, who[n - 1])
  }

  /** The call this turn asks for, if any. */
  function NewCall(s: Pool, t: Thread): seq<Job> {
    if t.AsCaller? && t.c < |s.callers| && s.callers[t.c] == Out && s.phase == Alive && t.total > 0
    then [Job(t.total, PartitionSize(t.total, if t.grain <= 0 then 1 else t.grain, |s.workers| + 1))] else []
  }

  lemma {:induction false} LedgerRun(run: seq<Ledger>, who: seq<Thread>, n: nat)
    requires IsLedgerRun(run, who) && n <= |who|
    ensures LedgerOk(run[n])
  {
    if n == 0 {
      LedgerStarts(run[0]);
    } else {
      LedgerRun(run, who, n - 1);
      LedgerNext(run[n - 1], who[n - 1], run[n]);
    }
  }

  lemma {:induction false} AskedRun(run: seq<Ledger>, who: seq<Thread>, n: nat)
    requires IsLedgerRun(run, who) && n <= |who|
    ensures run[n].asked == AskedIn(run, who, n)
  {
    if n > 0 {
      AskedRun(run, who, n - 1);
      AskedNext(run[n - 1], who[n - 1], run[n]);
    }
  }

  lemma AskedNext(l: Ledger, t: Thread, l': Ledger)
    requires LedgerMoves(l, t, l')
    ensures l'.asked == l.asked + NewCall(l.pool, t)
  {
  }

  lemma LedgerStarts(l: Ledger)
    requires Init(l.pool) && |l.cur| == |l.pool.callers| && l.asked == [] && l.pubs == [] && l.done == []
    ensures LedgerOk(l)
  {
    InitInv(l.pool);
  }

  lemma LedgerNext(l: Ledger, t: Thread, l': Ledger)
    requires LedgerOk(l) && LedgerMoves(l, t, l')
    ensures LedgerOk(l')
  {
    LedgerKeeps(l, t);
  }

  /** Call `id` went through the pool as job `g`, which ran each of its ranges once. */
  ghost predicate Pooled(s: Pool, asked: seq<Job>, pubs: seq<nat>, id: nat, g: nat) {
    && id < |asked| && 1 <= g <= |pubs| == |s.jobs| && pubs[g - 1] == id && s.jobs[g - 1] == asked[id]
    && forall k: nat :: RanOnce(s, g, k)
  }

  /** Main result: in every run, once no caller is inside a call, every call that the
      schedule asked for is over exactly once, and each that was cut into several ranges is
      one of the pool's jobs, whose ranges ran once each. */
  lemma EveryCallIsRun(run: seq<Ledger>, who: seq<Thread>)
    requires IsLedgerRun(run, who) && forall c | 0 <= c < |run[|who|].pool.callers| :: !Busy(run[|who|].pool.callers[c])
    ensures var l := run[|who|];
            && l.asked == AskedIn(run, who, |who|) && Distinct(l.done)
            && (forall id: nat :: id in l.done <==> id < |l.asked|)
            && forall id: nat | id < |l.asked| && l.asked[id].chunks > 1 :: exists g: nat :: Pooled(l.pool, l.asked, l.pubs, id, g)
  {
    LedgerRun(run, who, |who|);
    AskedRun(run, who, |who|);
    AllOver(run[|who|]);
  }

  /** The books when nobody is inside a call. */
  lemma AllOver(l: Ledger)
    requires LedgerOk(l) && forall c | 0 <= c < |l.pool.callers| :: !Busy(l.pool.callers[c])
    ensures Distinct(l.done) && forall id: nat :: id in l.done <==> id < |l.asked|
    ensures forall id: nat | id < |l.asked| && l.asked[id].chunks > 1 :: exists g: nat :: Pooled(l.pool, l.asked, l.pubs, id, g)
  {
    forall id: nat ensures id in l.done <==> id < |l.asked| {
      assert forall c: nat :: !Mine(l.pool.callers, l.cur, c, id);
    }
    forall id: nat | id < |l.asked| && l.asked[id].chunks > 1 ensures exists g: nat :: Pooled(l.pool, l.asked, l.pubs, id, g) {
      assert id in l.done && id in l.pubs;
      var g: nat :| g < |l.pubs| && l.pubs[g] == id;
      PooledOnce(l, id, g + 1);
    }
  }

  lemma PooledOnce(l: Ledger, id: nat, g: nat)
    requires LedgerOk(l) && forall c | 0 <= c < |l.pool.callers| :: !Busy(l.pool.callers[c])
    requires id < |l.asked| && 1 <= g <= |l.pubs| && l.pubs[g - 1] == id
    ensures Pooled(l.pool, l.asked, l.pubs, id, g)
  {
    assert !InFlight(l.pool);
  }
}
