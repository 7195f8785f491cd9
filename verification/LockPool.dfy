/** The lock server's handlers on the dispatch pool.  Every request is a job for one
    of a fixed number of worker threads, and an acquire that has to wait keeps its
    worker.  When all of them wait, nobody is left to run the release they wait for. */
module LockPool {
  import opened L = LockServer

  /** `OtherJob` stands for the handlers that end by themselves. */
  datatype Job = AcquireJob(want: Want) | ReleaseJob(want: Want) | OtherJob

  /** Threads below `n` are the workers, six of them in rpcs: a worker is waiting inside acquire (asleep or
      woken in `server`) or free.  `started` counts the jobs taken from the queue. */
  datatype Pool = Pool(n: nat, jobs: seq<Job>, server: Server, started: nat)

  function Init(n: nat): Pool { Pool(n, [], IDLE, 0) }

  function Waiting(s: Server): set<nat> { s.asleep.Keys + s.woken.Keys }

  datatype PoolStep =
    | Arrive(job: Job)
    | Start(w: nat, signalled: nat)
    | Again(w: nat)
    | Wake(w: nat)

  /** What a job does in its first critical section. */
  function First(job: Job, w: nat, signalled: nat): Step
    requires !job.OtherJob?
  {
    if job.AcquireJob? then Acquire(w, job.want) else Release(job.want.clt, job.want.lid, signalled)
  }

  predicate Can(p: Pool, step: PoolStep) {
    match step
    case Arrive(job) => |p.jobs| < 100 * p.n
    case Start(w, t) =>
      && p.jobs != [] && w < p.n && w !in Waiting(p.server)
      && (p.jobs[0].OtherJob? || L.Enabled(p.server, First(p.jobs[0], w, t)))
    case Again(w) => L.Enabled(p.server, Retry(w))
    case Wake(w) => L.Enabled(p.server, Spurious(w))
  }

  function Do(p: Pool, step: PoolStep): Pool
    requires Can(p, step)
  {
    match step
    case Arrive(job) => p.(jobs := p.jobs + [job])
    case Start(w, t) =>
      p.(jobs := p.jobs[1..], started := p.started + 1,
         server := if p.jobs[0].OtherJob? then p.server else L.Next(p.server, First(p.jobs[0], w, t)))
    case Again(w) => p.(server := L.Next(p.server, Retry(w)))
    case Wake(w) => p.(server := L.Next(p.server, Spurious(w)))
  }

  ghost predicate ServerOk(s: Server, n: nat) {
    && (forall w :: w in s.asleep ==> w < n && w !in s.woken)
    && (forall w :: w in s.woken ==> w < n)
  }

  ghost predicate Inv(p: Pool) { ServerOk(p.server, p.n) }

  lemma ServerKeeps(s: Server, step: Step, n: nat)
    requires ServerOk(s, n) && L.Enabled(s, step) && (step.Acquire? ==> step.tid < n)
    ensures ServerOk(L.Next(s, step), n)
  {
  }

  lemma StepKeeps(p: Pool, step: PoolStep)
    requires Inv(p) && Can(p, step)
    ensures Inv(Do(p, step)) && Do(p, step).n == p.n
  {
    match step
    case Arrive(job) =>
    case Start(w, t) =>
      if !p.jobs[0].OtherJob? {
        ServerKeeps(p.server, First(p.jobs[0], w, t), p.n);
      }
    case Again(w) => ServerKeeps(p.server, Retry(w), p.n);
    case Wake(w) => ServerKeeps(p.server, Spurious(w), p.n);
  }

  // ----------------------------------------------------------------- a free worker

  function Below(n: nat): set<nat> { if n == 0 then {} else Below(n - 1) + {n - 1} }

  lemma {:induction false} BelowSpec(n: nat)
    ensures |Below(n)| == n && forall w: nat :: w in Below(n) <==> w < n
  {
    if n > 0 {
      BelowSpec(n - 1);
    }
  }

  lemma SameSize(a: set<nat>, b: set<nat>)
    requires a <= b
    ensures |a| <= |b| && (|a| == |b| <==> a == b)
  {
    assert b == a + (b - a);
  }

  /** No worker is free. */
  predicate Full(p: Pool) { |Waiting(p.server)| == p.n }

  lemma FullMeansAll(p: Pool)
    requires Inv(p)
    ensures |Waiting(p.server)| <= p.n
    ensures if Full(p) then forall w: nat :: w < p.n ==> w in Waiting(p.server)
            else exists w: nat :: w < p.n && w !in Waiting(p.server)
  {
    BelowSpec(p.n);
    var waiting, all := Waiting(p.server), Below(p.n);
    SameSize(waiting, all);
    if !Full(p) {
      var w :| w in all && w !in waiting;
    }
  }

  lemma SomeSleeper(s: Server) returns (t: nat)
    requires forall w :: w in s.asleep ==> w !in s.woken
    ensures s.asleep != map[] ==> t in s.asleep && t !in s.woken
  {
    t := 0;
    if s.asleep != map[] {
      t :| t in s.asleep;
    }
  }

  lemma FreeWorkerStarts(p: Pool) returns (w: nat, t: nat)
    requires Inv(p) && p.jobs != [] && !Full(p)
    ensures Can(p, Start(w, t))
  {
    FullMeansAll(p);
    w :| w < p.n && w !in Waiting(p.server);
    t := SomeSleeper(p.server);
  }

  /** The next job, a release among others, can be started at once exactly when fewer
      handlers wait than there are workers. */
  lemma StartsExactly(p: Pool)
    requires Inv(p) && p.jobs != []
    ensures (exists w, t :: Can(p, Start(w, t))) <==> |Waiting(p.server)| < p.n
  {
    FullMeansAll(p);
    if !Full(p) {
      var w, t := FreeWorkerStarts(p);
    }
  }

  /** Starting the owner's release frees its lock and signals a sleeper; starting an
      acquire takes a free lock, or makes the worker wait. */
  lemma StartExactly(p: Pool, w: nat, t: nat)
    requires Can(p, Start(w, t)) && !p.jobs[0].OtherJob?
    ensures var q, want, s := Do(p, Start(w, t)), p.jobs[0].want, p.server;
            && q.jobs == p.jobs[1..] && q.started == p.started + 1 && q.n == p.n
            && if p.jobs[0].AcquireJob? then
                 if want.lid in s.locks then q.server.locks == s.locks && w in q.server.asleep
                 else q.server.locks == s.locks[want.lid := want.clt] && Waiting(q.server) == Waiting(s)
               else if want.lid in s.locks && s.locks[want.lid] == want.clt then
                 && q.server.locks == s.locks - {want.lid}
                 && (s.asleep != map[] ==> t in q.server.woken && t !in q.server.asleep)
               else q.server == s
  {
  }

  // ------------------------------------------------------------------------- runs

  ghost function After(p: Pool, steps: seq<PoolStep>): Pool {
    if steps == [] then p
    else
      var q := After(p, steps[..|steps| - 1]);
      if Can(q, steps[|steps| - 1]) then Do(q, steps[|steps| - 1]) else q
  }

  ghost predicate Possible(p: Pool, steps: seq<PoolStep>) {
    steps == [] ||
    (Possible(p, steps[..|steps| - 1]) && Can(After(p, steps[..|steps| - 1]), steps[|steps| - 1]))
  }

  lemma OneMore(p: Pool, steps: seq<PoolStep>, step: PoolStep)
    requires Possible(p, steps) && Can(After(p, steps), step)
    ensures Possible(p, steps + [step]) && After(p, steps + [step]) == Do(After(p, steps), step)
  {
    assert (steps + [step])[..|steps|] == steps;
  }

  lemma TwoMore(p: Pool, steps: seq<PoolStep>, a: PoolStep, b: PoolStep)
    requires Possible(p, steps) && Can(After(p, steps), a) && Can(Do(After(p, steps), a), b)
    ensures Possible(p, steps + [a] + [b]) && After(p, steps + [a] + [b]) == Do(Do(After(p, steps), a), b)
  {
    OneMore(p, steps, a);
    OneMore(p, steps + [a], b);
  }

  lemma {:induction false} RunInv(n: nat, steps: seq<PoolStep>)
    requires Possible(Init(n), steps)
    ensures Inv(After(Init(n), steps))
  {
    if steps != [] {
      RunInv(n, steps[..|steps| - 1]);
      StepKeeps(After(Init(n), steps[..|steps| - 1]), steps[|steps| - 1]);
    }
  }

  ghost predicate NoSpurious(steps: seq<PoolStep>) { forall i :: 0 <= i < |steps| ==> !steps[i].Wake? }

  /** Every worker waits, and those that have been signalled will find their lock held. */
  ghost predicate Stuck(p: Pool) {
    Full(p) && forall w :: w in p.server.woken ==> p.server.woken[w].lid in p.server.locks
  }

  /** Moreover every sleeper's lock is held, so that no spurious wakeup helps. */
  ghost predicate Wedged(p: Pool) {
    Stuck(p) && forall w :: w in p.server.asleep ==> p.server.asleep[w].lid in p.server.locks
  }

  /** Nothing has been started and no lock has changed hands; requests pile up. */
  ghost predicate Frozen(p: Pool, q: Pool) {
    q.n == p.n && q.started == p.started && q.server.locks == p.server.locks && p.jobs <= q.jobs
  }

  lemma RetryOfHeld(s: Server, w: nat)
    requires L.Enabled(s, Retry(w)) && s.woken[w].lid in s.locks
    ensures var t := L.Next(s, Retry(w));
            && t.locks == s.locks && Waiting(t) == Waiting(s)
            && t.woken == s.woken - {w} && t.asleep == s.asleep[w := s.woken[w]]
  {
  }

  lemma WakeEffect(s: Server, w: nat)
    requires L.Enabled(s, Spurious(w))
    ensures var t := L.Next(s, Spurious(w));
            && t.locks == s.locks && Waiting(t) == Waiting(s)
            && t.asleep == s.asleep - {w} && t.woken == s.woken[w := s.asleep[w]]
  {
  }

  lemma NoStartWhenFull(p: Pool, w: nat, t: nat)
    requires Inv(p) && Full(p)
    ensures !Can(p, Start(w, t))
  {
    FullMeansAll(p);
  }

  lemma StuckStep(p: Pool, step: PoolStep)
    requires Inv(p) && Stuck(p) && Can(p, step)
    ensures Frozen(p, Do(p, step))
    ensures !step.Wake? ==> Stuck(Do(p, step))
    ensures Wedged(p) ==> Wedged(Do(p, step))
  {
    match step
    case Arrive(job) =>
    case Start(w, t) => NoStartWhenFull(p, w, t);
    case Again(w) => RetryOfHeld(p.server, w);
    case Wake(w) => WakeEffect(p.server, w);
  }

  /** A stuck pool stays stuck: whatever arrives, no job is ever started again and no
      lock is ever released. */
  lemma {:induction false} StuckForever(p: Pool, steps: seq<PoolStep>)
    requires Inv(p) && Stuck(p) && Possible(p, steps) && NoSpurious(steps)
    ensures Inv(After(p, steps)) && Stuck(After(p, steps)) && Frozen(p, After(p, steps))
  {
    if steps != [] {
      var before, last := steps[..|steps| - 1], steps[|steps| - 1];
      StuckForever(p, before);
      StepKeeps(After(p, before), last);
      StuckStep(After(p, before), last);
    }
  }

  /** A wedged one does so even under spurious wakeups. */
  lemma {:induction false} WedgedForever(p: Pool, steps: seq<PoolStep>)
    requires Inv(p) && Wedged(p) && Possible(p, steps)
    ensures Inv(After(p, steps)) && Wedged(After(p, steps)) && Frozen(p, After(p, steps))
  {
    if steps != [] {
      var before, last := steps[..|steps| - 1], steps[|steps| - 1];
      WedgedForever(p, before);
      StepKeeps(After(p, before), last);
      StuckStep(After(p, before), last);
    }
  }

  /** Some run without spurious wakeups starts the next job. */
  ghost predicate EverStarts(p: Pool) {
    exists steps :: Possible(p, steps) && NoSpurious(steps) && After(p, steps).started > p.started
  }

  lemma Witnessed(p: Pool, steps: seq<PoolStep>)
    requires Possible(p, steps) && NoSpurious(steps) && After(p, steps).started > p.started
    ensures EverStarts(p)
  {
  }

  lemma StartNow(p: Pool, w: nat, t: nat)
    requires Can(p, Start(w, t))
    ensures EverStarts(p)
  {
    var none: seq<PoolStep> := [];
    assert After(p, none) == p && Possible(p, none);
    OneMore(p, none, Start(w, t));
    Witnessed(p, none + [Start(w, t)]);
  }

  lemma GrantFreesWorker(p: Pool, w: nat)
    requires Inv(p) && Full(p) && w in p.server.woken && p.server.woken[w].lid !in p.server.locks
    ensures Can(p, Again(w)) && !Full(Do(p, Again(w)))
  {
    var t := L.Next(p.server, Retry(w));
    assert Waiting(t) == Waiting(p.server) - {w};
  }

  lemma StartAfterGrant(p: Pool, w: nat)
    requires Inv(p) && p.jobs != [] && Full(p) && w in p.server.woken && p.server.woken[w].lid !in p.server.locks
    ensures EverStarts(p)
  {
    GrantFreesWorker(p, w);
    var q := Do(p, Again(w));
    StepKeeps(p, Again(w));
    var v, t := FreeWorkerStarts(q);
    var none: seq<PoolStep> := [];
    assert After(p, none) == p && Possible(p, none);
    TwoMore(p, none, Again(w), Start(v, t));
    Witnessed(p, none + [Again(w)] + [Start(v, t)]);
  }

  /** Exactly when the next job, and with it a release that everybody waits for, can
      ever be run: unless all workers wait and none of those signalled finds its lock
      free. */
  lemma EverStartsExactly(p: Pool)
    requires Inv(p) && p.jobs != []
    ensures EverStarts(p) <==> !Stuck(p)
  {
    if Stuck(p) {
      forall steps | Possible(p, steps) && NoSpurious(steps) ensures After(p, steps).started == p.started {
        StuckForever(p, steps);
      }
    } else if Full(p) {
      var w :| w in p.server.woken && p.server.woken[w].lid !in p.server.locks;
      StartAfterGrant(p, w);
    } else {
      var w, t := FreeWorkerStarts(p);
      StartNow(p, w, t);
    }
  }

  // ----------------------------------------------------------- how it comes about

  /** Client 7 holds lock 1 and `k` acquires of it wait on the workers below `k`. */
  function Piled(n: nat, k: nat): Pool {
    Pool(n, [], Server(map[1 := 7], map w | w in Below(k) :: Want(8, 1), map[]), k + 1)
  }

  lemma OneMoreWaits(n: nat, k: nat)
    requires k < n
    ensures var p, a := Piled(n, k), Arrive(AcquireJob(Want(8, 1)));
            && Can(p, a) && Can(Do(p, a), Start(k, 0))
            && Do(Do(p, a), Start(k, 0)) == Piled(n, k + 1)
  {
    BelowSpec(k);
    var s, t := Piled(n, k).server, Piled(n, k + 1).server;
    assert s.asleep[k := Want(8, 1)] == t.asleep;
    assert [AcquireJob(Want(8, 1))][1..] == [];
  }

  lemma FirstHolds(n: nat)
    requires n > 0
    ensures var a := Arrive(AcquireJob(Want(7, 1)));
            && Can(Init(n), a) && Can(Do(Init(n), a), Start(0, 0))
            && Do(Do(Init(n), a), Start(0, 0)) == Piled(n, 0)
  {
    assert [AcquireJob(Want(7, 1))][1..] == [];
    assert Piled(n, 0).server.asleep == map[];
  }

  lemma {:induction false} PileUp(n: nat, k: nat) returns (steps: seq<PoolStep>)
    requires k <= n && n > 0
    ensures Possible(Init(n), steps) && After(Init(n), steps) == Piled(n, k)
  {
    if k == 0 {
      FirstHolds(n);
      TwoMore(Init(n), [], Arrive(AcquireJob(Want(7, 1))), Start(0, 0));
      steps := [] + [Arrive(AcquireJob(Want(7, 1)))] + [Start(0, 0)];
    } else {
      var before := PileUp(n, k - 1);
      OneMoreWaits(n, k - 1);
      TwoMore(Init(n), before, Arrive(AcquireJob(Want(8, 1))), Start(k - 1, 0));
      steps := before + [Arrive(AcquireJob(Want(8, 1)))] + [Start(k - 1, 0)];
    }
  }

  /** With any number of workers, as many waiting acquires as workers leave the
      holder's release in the queue for good. */
  lemma WaitersStarveRelease(n: nat) returns (steps: seq<PoolStep>)
    requires n > 0
    ensures Possible(Init(n), steps)
    ensures var p := After(Init(n), steps);
            && Inv(p) && Wedged(p) && p.jobs == [ReleaseJob(Want(7, 1))] && MayDrop(p.server.locks, 7, 1)
            && !EverStarts(p)
  {
    var before := PileUp(n, n);
    var a := Arrive(ReleaseJob(Want(7, 1)));
    OneMore(Init(n), before, a);
    steps := before + [a];
    var p := After(Init(n), steps);
    RunInv(n, steps);
    assert Waiting(p.server) == Below(n);
    BelowSpec(n);
    EverStartsExactly(p);
  }
}
