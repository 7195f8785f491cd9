/** Shutting down the thread pool.  The destructor adds one poison pill per worker
    to the job queue and joins the workers; a worker that takes a pill exits.  The
    queue is the blocking one, sleepers and signals included.  Jobs end, no job is
    added meanwhile, and condition waits do not wake spuriously. */
module ThreadPool {
  import opened Fifo

  datatype Job = Pill | Task(id: nat)

  /** A worker is about to call deq (`ready`), inside it (asleep or woken in `jobs`),
      running a job (`busy`) or gone (`exited`).  Thread 0 is the destructor. */
  datatype Pool = Pool(
    jobs: Queue<Job>, workers: set<nat>,
    ready: set<nat>, busy: set<nat>, exited: set<nat>,
    pillsLeft: nat, ran: seq<nat>)

  const DESTRUCTOR := 0

  datatype PoolStep =
    | PushPill(who: nat)
    | PushAgain(who: nat)
    | Take(w: nat, who: nat)
    | TakeAgain(w: nat, who: nat)
    | Finish(w: nat)

  predicate Can(p: Pool, step: PoolStep) {
    match step
    case PushPill(who) => p.pillsLeft > 0 && Enabled(p.jobs, Enq(DESTRUCTOR, Pill, true, who))
    case PushAgain(who) => p.pillsLeft > 0 && Enabled(p.jobs, EnqAgain(DESTRUCTOR, who))
    case Take(w, who) => w in p.ready && Enabled(p.jobs, Deq(w, who))
    case TakeAgain(w, who) => Enabled(p.jobs, DeqAgain(w, who))
    case Finish(w) => w in p.busy
  }

  /** What worker `w` does with the outcome of its turn in deq. */
  function Served(p: Pool, w: nat, jobs: Queue<Job>): Pool {
    var q := p.jobs.q;
    if q == [] then p.(jobs := jobs, ready := p.ready - {w})
    else if q[0].Pill? then p.(jobs := jobs, ready := p.ready - {w}, exited := p.exited + {w})
    else p.(jobs := jobs, ready := p.ready - {w}, busy := p.busy + {w}, ran := p.ran + [q[0].id])
  }

  function Pushed(p: Pool, jobs: Queue<Job>): Pool {
    p.(jobs := jobs, pillsLeft := if HasSpace(p.jobs) && p.pillsLeft > 0 then p.pillsLeft - 1 else p.pillsLeft)
  }

  function Do(p: Pool, step: PoolStep): Pool
    requires Can(p, step)
  {
    match step
    case PushPill(who) => Pushed(p, Fifo.Next(p.jobs, Enq(DESTRUCTOR, Pill, true, who)))
    case PushAgain(who) => Pushed(p, Fifo.Next(p.jobs, EnqAgain(DESTRUCTOR, who)))
    case Take(w, who) => Served(p, w, Fifo.Next(p.jobs, Deq(w, who)))
    case TakeAgain(w, who) => Served(p, w, Fifo.Next(p.jobs, DeqAgain(w, who)))
    case Finish(w) => p.(busy := p.busy - {w}, ready := p.ready + {w})
  }

  // --------------------------------------------------------------- queue contents

  function Pills(q: seq<Job>): nat {
    if q == [] then 0 else (if q[0].Pill? then 1 else 0) + Pills(q[1..])
  }

  function Tasks(q: seq<Job>): seq<nat> {
    if q == [] then [] else (if q[0].Pill? then [] else [q[0].id]) + Tasks(q[1..])
  }

  /** No task stands behind a pill. */
  ghost predicate PillsLast(q: seq<Job>) {
    forall i, j :: 0 <= i < j < |q| && q[i].Pill? ==> q[j].Pill?
  }

  ghost predicate OnlyPills(q: seq<Job>) { forall i :: 0 <= i < |q| ==> q[i].Pill? }

  lemma {:induction false} AddPill(q: seq<Job>)
    ensures Pills(q + [Pill]) == Pills(q) + 1 && Tasks(q + [Pill]) == Tasks(q)
  {
    if q == [] {
      assert q + [Pill] == [Pill];
    } else {
      AddPill(q[1..]);
      assert (q + [Pill])[1..] == q[1..] + [Pill];
    }
  }

  lemma {:induction false} OnlyPillsCount(q: seq<Job>)
    requires OnlyPills(q)
    ensures Pills(q) == |q| && Tasks(q) == []
  {
    if q != [] {
      OnlyPillsCount(q[1..]);
    }
  }

  // -------------------------------------------------------------------- invariant

  /** Every worker is in exactly one place. */
  ghost predicate Partition(workers: set<nat>, ready: set<nat>, busy: set<nat>, exited: set<nat>, inDeq: set<nat>) {
    && workers == ready + busy + exited + inDeq
    && ready !! busy && exited !! ready + busy && inDeq !! ready + busy + exited
    && DESTRUCTOR !in workers
  }

  ghost predicate DestructorOk(asleep: map<nat, Job>, woken: map<nat, Job>, pillsLeft: nat) {
    && asleep.Keys + woken.Keys <= {DESTRUCTOR}
    && (DESTRUCTOR in asleep ==> pillsLeft > 0 && asleep[DESTRUCTOR] == Pill)
    && (DESTRUCTOR in woken ==> pillsLeft > 0 && woken[DESTRUCTOR] == Pill)
  }

  /** `all` are the tasks queued when the destructor started. */
  ghost predicate QueueInv(q: seq<Job>, pillsLeft: nat, exited: nat, n: nat, ran: seq<nat>, all: seq<nat>) {
    && PillsLast(q) && (exited > 0 ==> OnlyPills(q))
    && Pills(q) + pillsLeft + exited == n
    && ran + Tasks(q) == all
  }

  ghost predicate PoolInv(p: Pool, all: seq<nat>) {
    && Fifo.Inv(p.jobs) && p.jobs.max == 100 * |p.workers| && p.workers != {}
    && Partition(p.workers, p.ready, p.busy, p.exited, p.jobs.asleepC + p.jobs.wokenC)
    && DestructorOk(p.jobs.asleepP, p.jobs.wokenP, p.pillsLeft)
    && QueueInv(p.jobs.q, p.pillsLeft, |p.exited|, |p.workers|, p.ran, all)
  }

  /** The destructor starts: any tasks queued, workers anywhere, nobody adding. */
  ghost predicate Starts(p: Pool) {
    && Fifo.Inv(p.jobs) && p.jobs.max == 100 * |p.workers| && p.workers != {}
    && Partition(p.workers, p.ready, p.busy, p.exited, p.jobs.asleepC + p.jobs.wokenC)
    && p.jobs.asleepP == map[] && p.jobs.wokenP == map[]
    && (forall i :: 0 <= i < |p.jobs.q| ==> p.jobs.q[i].Task?)
    && p.pillsLeft == |p.workers| && p.exited == {} && p.ran == []
  }

  lemma QueueStarts(q: seq<Job>, n: nat)
    requires forall i :: 0 <= i < |q| ==> q[i].Task?
    ensures QueueInv(q, n, 0, n, [], Tasks(q))
  {
  }

  lemma StartInv(p: Pool)
    requires Starts(p)
    ensures PoolInv(p, Tasks(p.jobs.q))
  {
    QueueStarts(p.jobs.q, |p.workers|);
  }

  // ----------------------------------------------------------------- preservation

  lemma QueueGainsPill(q: seq<Job>, left: nat, exited: nat, n: nat, ran: seq<nat>, all: seq<nat>)
    requires QueueInv(q, left, exited, n, ran, all) && left > 0
    ensures QueueInv(q + [Pill], left - 1, exited, n, ran, all)
  {
    AddPill(q);
  }

  lemma QueueGivesPill(q: seq<Job>, left: nat, exited: nat, n: nat, ran: seq<nat>, all: seq<nat>)
    requires QueueInv(q, left, exited, n, ran, all) && q != [] && q[0].Pill?
    ensures QueueInv(q[1..], left, exited + 1, n, ran, all)
  {
  }

  lemma QueueGivesTask(q: seq<Job>, left: nat, exited: nat, n: nat, ran: seq<nat>, all: seq<nat>)
    requires QueueInv(q, left, exited, n, ran, all) && q != [] && q[0].Task?
    ensures QueueInv(q[1..], left, exited, n, ran + [q[0].id], all)
  {
  }

  /** What a turn in enq does for the destructor, pushing a pill or not. */
  ghost predicate EnqEffect(f: Queue<Job>, g: Queue<Job>) {
    && g.max == f.max && g.q == (if HasSpace(f) then f.q + [Pill] else f.q)
    && g.asleepC + g.wokenC == f.asleepC + f.wokenC
    && g.wokenP == map[] && g.asleepP == if HasSpace(f) then map[] else map[DESTRUCTOR := Pill]
  }

  lemma EnqTurnEffect(f: Queue<Job>, who: nat)
    requires f.asleepP == map[] && f.wokenP == map[]
    ensures EnqEffect(f, EnqTurn(f, DESTRUCTOR, Pill, true, who))
  {
  }

  lemma PushKeeps(p: Pool, all: seq<nat>, jobs: Queue<Job>)
    requires PoolInv(p, all) && p.pillsLeft > 0 && EnqEffect(p.jobs, jobs) && Fifo.Inv(jobs)
    ensures PoolInv(Pushed(p, jobs), all)
  {
    QueueGainsPill(p.jobs.q, p.pillsLeft, |p.exited|, |p.workers|, p.ran, all);
  }

  lemma PushPillKeeps(p: Pool, all: seq<nat>, who: nat)
    requires PoolInv(p, all) && Can(p, PushPill(who))
    ensures PoolInv(Do(p, PushPill(who)), all)
  {
    var f, step := p.jobs, Enq(DESTRUCTOR, Pill, true, who);
    Fifo.StepKeeps(f, step);
    assert f.asleepP == map[] && f.wokenP == map[] by { OnlyDestructor(f, p.pillsLeft); }
    EnqTurnEffect(f, who);
    PushKeeps(p, all, Fifo.Next(f, step));
  }

  lemma OnlyDestructor(f: Queue<Job>, left: nat)
    requires DestructorOk(f.asleepP, f.wokenP, left) && DESTRUCTOR !in f.asleepP && DESTRUCTOR !in f.wokenP
    ensures f.asleepP == map[] && f.wokenP == map[]
  {
  }

  lemma PushAgainKeeps(p: Pool, all: seq<nat>, who: nat)
    requires PoolInv(p, all) && Can(p, PushAgain(who))
    ensures PoolInv(Do(p, PushAgain(who)), all)
  {
    var f := p.jobs;
    Fifo.StepKeeps(f, EnqAgain(DESTRUCTOR, who));
    var g := f.(wokenP := f.wokenP - {DESTRUCTOR});
    assert g.asleepP == map[] && g.wokenP == map[] by { OnlyDestructor(g, p.pillsLeft); }
    EnqTurnEffect(g, who);
    PushKeeps(p, all, Fifo.Next(f, EnqAgain(DESTRUCTOR, who)));
  }

  ghost predicate ProducersKept(f: Queue<Job>, g: Queue<Job>) {
    && g.asleepP.Keys + g.wokenP.Keys == f.asleepP.Keys + f.wokenP.Keys
    && (forall t :: t in g.asleepP ==> t in f.asleepP && g.asleepP[t] == f.asleepP[t])
    && (forall t :: t in g.wokenP ==>
          (t in f.wokenP && g.wokenP[t] == f.wokenP[t]) || (t in f.asleepP && g.wokenP[t] == f.asleepP[t]))
  }

  /** What a turn in deq does to the queue, apart from who wakes. */
  ghost predicate DeqEffect(f: Queue<Job>, g: Queue<Job>, w: nat) {
    && g.max == f.max && g.q == (if f.q == [] then [] else f.q[1..])
    && g.asleepC == (if f.q == [] then f.asleepC + {w} else f.asleepC) && g.wokenC == f.wokenC - {w}
    && ProducersKept(f, g)
  }

  lemma DeqTurnEffect(f: Queue<Job>, w: nat, who: nat)
    requires w !in f.wokenC
    ensures DeqEffect(f, DeqTurn(f, w, who), w)
  {
  }

  lemma DeqAgainEffect(f: Queue<Job>, w: nat, who: nat)
    requires w in f.wokenC
    ensures DeqEffect(f, DeqTurn(f.(wokenC := f.wokenC - {w}), w, who), w)
  {
  }

  lemma ServedQueue(p: Pool, all: seq<nat>, w: nat, jobs: Queue<Job>)
    requires QueueInv(p.jobs.q, p.pillsLeft, |p.exited|, |p.workers|, p.ran, all)
    requires DeqEffect(p.jobs, jobs, w) && w !in p.exited
    ensures var t := Served(p, w, jobs);
            QueueInv(t.jobs.q, t.pillsLeft, |t.exited|, |t.workers|, t.ran, all)
  {
    if p.jobs.q != [] {
      if p.jobs.q[0].Pill? {
        AddOne(p.exited, w);
        QueueGivesPill(p.jobs.q, p.pillsLeft, |p.exited|, |p.workers|, p.ran, all);
      } else {
        QueueGivesTask(p.jobs.q, p.pillsLeft, |p.exited|, |p.workers|, p.ran, all);
      }
    }
  }

  lemma ServedWorkers(p: Pool, w: nat, jobs: Queue<Job>)
    requires Partition(p.workers, p.ready, p.busy, p.exited, p.jobs.asleepC + p.jobs.wokenC)
    requires DeqEffect(p.jobs, jobs, w) && w in p.ready + p.jobs.wokenC && w !in p.jobs.asleepC
    ensures var t := Served(p, w, jobs);
            Partition(t.workers, t.ready, t.busy, t.exited, t.jobs.asleepC + t.jobs.wokenC)
  {
  }

  lemma DestructorStays(f: Queue<Job>, g: Queue<Job>, left: nat)
    requires DestructorOk(f.asleepP, f.wokenP, left) && ProducersKept(f, g)
    ensures DestructorOk(g.asleepP, g.wokenP, left)
  {
  }

  lemma ServedSame(p: Pool, w: nat, jobs: Queue<Job>)
    ensures var t := Served(p, w, jobs);
            t.workers == p.workers && t.jobs == jobs && t.pillsLeft == p.pillsLeft
  {
  }

  lemma IsPool(p: Pool, all: seq<nat>)
    requires Fifo.Inv(p.jobs) && p.jobs.max == 100 * |p.workers| && p.workers != {}
    requires Partition(p.workers, p.ready, p.busy, p.exited, p.jobs.asleepC + p.jobs.wokenC)
    requires DestructorOk(p.jobs.asleepP, p.jobs.wokenP, p.pillsLeft)
    requires QueueInv(p.jobs.q, p.pillsLeft, |p.exited|, |p.workers|, p.ran, all)
    ensures PoolInv(p, all)
  {
  }

  lemma ServedKeeps(p: Pool, all: seq<nat>, w: nat, jobs: Queue<Job>)
    requires PoolInv(p, all) && DeqEffect(p.jobs, jobs, w) && Fifo.Inv(jobs)
    requires w in p.ready + p.jobs.wokenC && w !in p.jobs.asleepC
    ensures PoolInv(Served(p, w, jobs), all)
  {
    ServedQueue(p, all, w, jobs);
    ServedWorkers(p, w, jobs);
    DestructorStays(p.jobs, jobs, p.pillsLeft);
    ServedSame(p, w, jobs);
    IsPool(Served(p, w, jobs), all);
  }

  lemma TakeKeeps(p: Pool, all: seq<nat>, w: nat, who: nat)
    requires PoolInv(p, all) && Can(p, Take(w, who))
    ensures PoolInv(Do(p, Take(w, who)), all)
  {
    Fifo.StepKeeps(p.jobs, Deq(w, who));
    DeqTurnEffect(p.jobs, w, who);
    ServedKeeps(p, all, w, Fifo.Next(p.jobs, Deq(w, who)));
  }

  lemma TakeAgainKeeps(p: Pool, all: seq<nat>, w: nat, who: nat)
    requires PoolInv(p, all) && Can(p, TakeAgain(w, who))
    ensures PoolInv(Do(p, TakeAgain(w, who)), all)
  {
    Fifo.StepKeeps(p.jobs, DeqAgain(w, who));
    DeqAgainEffect(p.jobs, w, who);
    ServedKeeps(p, all, w, Fifo.Next(p.jobs, DeqAgain(w, who)));
  }

  lemma FinishKeeps(p: Pool, all: seq<nat>, w: nat)
    requires PoolInv(p, all) && w in p.busy
    ensures PoolInv(Do(p, Finish(w)), all)
  {
    JobEnds(p.workers, p.ready, p.busy, p.exited, p.jobs.asleepC + p.jobs.wokenC, w);
  }

  lemma JobEnds(ws: set<nat>, ready: set<nat>, busy: set<nat>, exited: set<nat>, inDeq: set<nat>, w: nat)
    requires Partition(ws, ready, busy, exited, inDeq) && w in busy
    ensures Partition(ws, ready + {w}, busy - {w}, exited, inDeq)
  {
  }

  lemma PoolStepKeeps(p: Pool, all: seq<nat>, step: PoolStep)
    requires PoolInv(p, all) && Can(p, step)
    ensures PoolInv(Do(p, step), all)
  {
    match step
    case PushPill(who) => PushPillKeeps(p, all, who);
    case PushAgain(who) => PushAgainKeeps(p, all, who);
    case Take(w, who) => TakeKeeps(p, all, w, who);
    case TakeAgain(w, who) => TakeAgainKeeps(p, all, w, who);
    case Finish(w) => FinishKeeps(p, all, w);
  }

  // ------------------------------------------------------------------ termination

  /** The destructor is about to call enq. */
  predicate Idle(p: Pool) {
    p.pillsLeft > 0 && DESTRUCTOR !in p.jobs.asleepP && DESTRUCTOR !in p.jobs.wokenP
  }

  function Measure(p: Pool): nat {
    6 * p.pillsLeft + 3 * |p.jobs.q| + 2 * |p.busy| + |p.ready| + |p.jobs.wokenC| + |p.jobs.wokenP.Keys|
    + (if Idle(p) then 1 else 0)
  }

  lemma PushPillDrops(p: Pool, who: nat)
    requires DestructorOk(p.jobs.asleepP, p.jobs.wokenP, p.pillsLeft) && Can(p, PushPill(who))
    ensures Measure(Do(p, PushPill(who))) < Measure(p)
  {
  }

  lemma PushAgainDrops(p: Pool, who: nat)
    requires DestructorOk(p.jobs.asleepP, p.jobs.wokenP, p.pillsLeft) && Can(p, PushAgain(who))
    requires p.jobs.asleepP.Keys !! p.jobs.wokenP.Keys
    ensures Measure(Do(p, PushAgain(who))) < Measure(p)
  {
  }

  ghost predicate DeqWakes(f: Queue<Job>, g: Queue<Job>) {
    |g.wokenP.Keys| <= |f.wokenP.Keys| + (if f.q == [] then 0 else 1)
  }

  lemma DeqTurnWakes(f: Queue<Job>, w: nat, who: nat)
    requires f.asleepP.Keys !! f.wokenP.Keys
    ensures DeqWakes(f, DeqTurn(f, w, who))
  {
  }

  lemma SameIdle(f: Queue<Job>, g: Queue<Job>)
    requires ProducersKept(f, g)
    ensures DESTRUCTOR in f.asleepP || DESTRUCTOR in f.wokenP <==> DESTRUCTOR in g.asleepP || DESTRUCTOR in g.wokenP
  {
  }

  /** A worker that takes a turn in deq leaves `ready` or `wokenC`. */
  lemma WorkerLeaves(ready: set<nat>, woken: set<nat>, w: nat)
    requires w in ready <==> w !in woken
    ensures |ready - {w}| + |woken - {w}| == |ready| + |woken| - 1
  {
  }

  predicate Adding(f: Queue<Job>) { DESTRUCTOR in f.asleepP || DESTRUCTOR in f.wokenP }

  lemma MeasureDrops(p: Pool, w: nat, jobs: Queue<Job>)
    requires jobs.wokenC == p.jobs.wokenC - {w} && DeqWakes(p.jobs, jobs) && Adding(jobs) == Adding(p.jobs)
    requires |jobs.q| == if p.jobs.q == [] then 0 else |p.jobs.q| - 1
    requires w !in p.busy && (w in p.ready <==> w !in p.jobs.wokenC)
    ensures Measure(Served(p, w, jobs)) < Measure(p)
  {
    WorkerLeaves(p.ready, p.jobs.wokenC, w);
    AddOne(p.busy, w);
  }

  lemma ServedDrops(p: Pool, w: nat, jobs: Queue<Job>)
    requires DeqEffect(p.jobs, jobs, w) && DeqWakes(p.jobs, jobs) && w !in p.busy
    requires w in p.ready <==> w !in p.jobs.wokenC
    ensures Measure(Served(p, w, jobs)) < Measure(p)
  {
    SameIdle(p.jobs, jobs);
    MeasureDrops(p, w, jobs);
  }

  lemma TakeDrops(p: Pool, w: nat, who: nat)
    requires Partition(p.workers, p.ready, p.busy, p.exited, p.jobs.asleepC + p.jobs.wokenC)
    requires Can(p, Take(w, who)) && p.jobs.asleepP.Keys !! p.jobs.wokenP.Keys
    ensures Measure(Do(p, Take(w, who))) < Measure(p)
  {
    DeqTurnEffect(p.jobs, w, who);
    DeqTurnWakes(p.jobs, w, who);
    ServedDrops(p, w, Fifo.Next(p.jobs, Deq(w, who)));
  }

  lemma TakeAgainDrops(p: Pool, w: nat, who: nat)
    requires Partition(p.workers, p.ready, p.busy, p.exited, p.jobs.asleepC + p.jobs.wokenC)
    requires Can(p, TakeAgain(w, who)) && p.jobs.asleepP.Keys !! p.jobs.wokenP.Keys
    ensures Measure(Do(p, TakeAgain(w, who))) < Measure(p)
  {
    DeqAgainEffect(p.jobs, w, who);
    DeqTurnWakes(p.jobs.(wokenC := p.jobs.wokenC - {w}), w, who);
    ServedDrops(p, w, Fifo.Next(p.jobs, DeqAgain(w, who)));
  }

  /** Every step makes the measure smaller. */
  lemma StepDecreases(p: Pool, all: seq<nat>, step: PoolStep)
    requires PoolInv(p, all) && Can(p, step)
    ensures Measure(Do(p, step)) < Measure(p)
  {
    match step
    case PushPill(who) => PushPillDrops(p, who);
    case PushAgain(who) => PushAgainDrops(p, who);
    case Take(w, who) => TakeDrops(p, w, who);
    case TakeAgain(w, who) => TakeAgainDrops(p, w, who);
    case Finish(w) =>
      TakeOne(p.busy, w);
      AddOne(p.ready, w);
  }

  /** Whom a signal wakes, when it may choose. */
  lemma SomeSleeper(f: Queue<Job>) returns (whoC: nat, whoP: nat)
    ensures Picks(f, whoC) && PicksP(f, whoP)
  {
    whoC, whoP := 0, 0;
    if f.asleepC != {} {
      whoC :| whoC in f.asleepC;
    }
    if f.asleepP.Keys != {} {
      whoP :| whoP in f.asleepP.Keys;
    }
  }

  /** Until every worker has exited, somebody can move: no wakeup that matters can
      be missing, for workers or for the destructor. */
  lemma SomeoneCanMove(p: Pool, all: seq<nat>) returns (step: PoolStep)
    requires PoolInv(p, all) && p.exited != p.workers
    ensures Can(p, step)
  {
    var whoC, whoP := SomeSleeper(p.jobs);
    if p.busy != {} {
      var w :| w in p.busy;
      step := Finish(w);
    } else if p.jobs.wokenC != {} {
      var w :| w in p.jobs.wokenC;
      step := TakeAgain(w, whoP);
    } else if p.ready != {} {
      var w :| w in p.ready;
      ReadyCanTake(p, w, whoP);
      step := Take(w, whoP);
    } else {
      step := DestructorMoves(p, all, whoC);
    }
  }

  lemma ReadyCanTake(p: Pool, w: nat, who: nat)
    requires Partition(p.workers, p.ready, p.busy, p.exited, p.jobs.asleepC + p.jobs.wokenC)
    requires DestructorOk(p.jobs.asleepP, p.jobs.wokenP, p.pillsLeft) && w in p.ready && PicksP(p.jobs, who)
    ensures Can(p, Take(w, who))
  {
  }

  /** With every worker asleep or gone the queue is empty and pills are missing. */
  lemma PillsMissing(p: Pool, all: seq<nat>)
    requires Partition(p.workers, p.ready, p.busy, p.exited, p.jobs.asleepC + p.jobs.wokenC)
    requires QueueInv(p.jobs.q, p.pillsLeft, |p.exited|, |p.workers|, p.ran, all) && p.exited != p.workers
    requires p.busy == {} && p.ready == {} && p.jobs.wokenC == {}
    requires p.jobs.asleepC != {} ==> |p.jobs.q| <= |p.jobs.wokenC|
    ensures p.pillsLeft > 0 && p.jobs.q == [] && DESTRUCTOR !in p.jobs.asleepC
  {
  }

  /** An empty queue has space, so the destructor does not sleep. */
  lemma NotFull(f: Queue<Job>, left: nat)
    requires f.q == [] && f.max > 1 && DestructorOk(f.asleepP, f.wokenP, left) && f.asleepP.Keys !! f.wokenP.Keys
    requires f.asleepP.Keys != {} ==> f.max - |f.q| <= |f.wokenP.Keys|
    ensures DESTRUCTOR !in f.asleepP
  {
  }

  lemma DestructorMoves(p: Pool, all: seq<nat>, who: nat) returns (step: PoolStep)
    requires PoolInv(p, all) && p.exited != p.workers && Picks(p.jobs, who)
    requires p.busy == {} && p.ready == {} && p.jobs.wokenC == {}
    ensures Can(p, step)
  {
    PillsMissing(p, all);
    NonEmptySet(p.workers);
    NotFull(p.jobs, p.pillsLeft);
    step := if DESTRUCTOR in p.jobs.wokenP then PushAgain(who) else PushPill(who);
  }

  lemma NonEmptySet(a: set<nat>)
    requires a != {}
    ensures |a| >= 1
  {
  }

  // ------------------------------------------------------------------------- runs

  ghost predicate Linked(run: seq<Pool>, steps: seq<PoolStep>) {
    && |run| == |steps| + 1
    && forall i :: 0 <= i < |steps| ==> Can(run[i], steps[i]) && run[i + 1] == Do(run[i], steps[i])
  }

  ghost predicate IsShutdown(run: seq<Pool>, steps: seq<PoolStep>) {
    Linked(run, steps) && Starts(run[0])
  }

  lemma DoKeepsWorkers(p: Pool, step: PoolStep)
    requires Can(p, step)
    ensures Do(p, step).workers == p.workers
  {
  }

  lemma StepAll(p: Pool, all: seq<nat>, step: PoolStep)
    requires PoolInv(p, all) && Can(p, step)
    ensures PoolInv(Do(p, step), all) && Do(p, step).workers == p.workers && Measure(Do(p, step)) < Measure(p)
  {
    PoolStepKeeps(p, all, step);
    DoKeepsWorkers(p, step);
    StepDecreases(p, all, step);
  }

  lemma {:induction false} KeptAlong(run: seq<Pool>, steps: seq<PoolStep>, all: seq<nat>, i: nat)
    requires Linked(run, steps) && PoolInv(run[0], all) && i < |run|
    ensures PoolInv(run[i], all) && run[i].workers == run[0].workers && Measure(run[i]) + i <= Measure(run[0])
  {
    if i > 0 {
      KeptAlong(run, steps, all, i - 1);
      var p, step := run[i - 1], steps[i - 1];
      assert Can(p, step) && run[i] == Do(p, step);
      StepAll(p, all, step);
    }
  }

  lemma ShutdownInv(run: seq<Pool>, steps: seq<PoolStep>, i: nat)
    requires IsShutdown(run, steps) && i < |run|
    ensures PoolInv(run[i], Tasks(run[0].jobs.q)) && run[i].workers == run[0].workers
    ensures Measure(run[i]) + i <= Measure(run[0])
  {
    StartInv(run[0]);
    KeptAlong(run, steps, Tasks(run[0].jobs.q), i);
  }

  /** Shutdown takes boundedly many steps, and when nothing more can happen every
      queued task has run exactly once and in order, every worker has exited on its
      own pill, and the queue is empty. */
  lemma ShutdownCompletes(run: seq<Pool>, steps: seq<PoolStep>)
    requires IsShutdown(run, steps)
    ensures |steps| <= Measure(run[0])
    ensures var p := run[|run| - 1];
            (forall step :: !Can(p, step)) ==>
              && p.exited == p.workers && p.jobs.q == [] && p.pillsLeft == 0
              && p.ran == Tasks(run[0].jobs.q)
  {
    var all := Tasks(run[0].jobs.q);
    ShutdownInv(run, steps, |steps|);
    var p := run[|run| - 1];
    if forall step :: !Can(p, step) {
      assert p.exited == p.workers by {
        if p.exited != p.workers {
          var step := SomeoneCanMove(p, all);
        }
      }
      NonEmptySet(p.workers);
      OnlyPillsCount(p.jobs.q);
    }
  }

  lemma Extended(run: seq<Pool>, steps: seq<PoolStep>, step: PoolStep, q: Pool)
    requires Linked(run, steps) && Can(run[|steps|], step) && q == Do(run[|steps|], step)
    ensures Linked(run + [q], steps + [step])
  {
  }

  ghost predicate Over(p: Pool) { p.exited == p.workers }

  lemma OneMore(run: seq<Pool>, steps: seq<PoolStep>) returns (step: PoolStep)
    requires IsShutdown(run, steps) && !Over(run[|steps|])
    ensures Can(run[|steps|], step) && Measure(Do(run[|steps|], step)) < Measure(run[|steps|])
    ensures IsShutdown(run + [Do(run[|steps|], step)], steps + [step])
  {
    var all := Tasks(run[0].jobs.q);
    ShutdownInv(run, steps, |steps|);
    step := SomeoneCanMove(run[|steps|], all);
    StepDecreases(run[|steps|], all, step);
    Extended(run, steps, step, Do(run[|steps|], step));
  }

  /** However a shutdown has gone so far, it can be brought to its end. */
  lemma {:induction false} ShutdownCanEnd(run: seq<Pool>, steps: seq<PoolStep>) returns (run': seq<Pool>, steps': seq<PoolStep>)
    requires IsShutdown(run, steps)
    ensures IsShutdown(run', steps') && run <= run' && steps <= steps'
    ensures Over(run'[|steps'|])
    decreases Measure(run[|steps|])
  {
    if Over(run[|steps|]) {
      run', steps' := run, steps;
    } else {
      var step := OneMore(run, steps);
      run', steps' := ShutdownCanEnd(run + [Do(run[|steps|], step)], steps + [step]);
    }
  }

  /** Such starts exist: one idle worker, asleep, and nothing queued. */
  lemma SomeStart()
    ensures Starts(Pool(Make<Job>(100).(asleepC := {1}), {1}, {}, {}, {}, 1, []))
  {
  }
}
