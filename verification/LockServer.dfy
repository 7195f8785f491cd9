/** The lock server: a map from lock id to client, one mutex and one condition
    variable.  A thread in `acquire` that finds the lock taken sleeps; `release`
    signals one sleeper, which retries once it has the mutex again. */
module LockServer {

  datatype Want = Want(clt: nat, lid: nat)

  datatype Server = Server(locks: map<nat, nat>, asleep: map<nat, Want>, woken: map<nat, Want>)

  const IDLE := Server(map[], map[], map[])

  // -------------------------------------------------------- the two map updates

  function GetLock(locks: map<nat, nat>, clt: nat, lid: nat): map<nat, nat> {
    if lid in locks then locks else locks[lid := clt]
  }

  /** drop_lock succeeds only for the recorded owner. */
  predicate MayDrop(locks: map<nat, nat>, clt: nat, lid: nat) {
    lid in locks && locks[lid] == clt
  }

  function DropLock(locks: map<nat, nat>, clt: nat, lid: nat): map<nat, nat> {
    if MayDrop(locks, clt, lid) then locks - {lid} else locks
  }

  // -------------------------------------------------------- steps with sleepers

  datatype Step =
    | Acquire(tid: nat, want: Want)
    | Retry(tid: nat)
    | Release(clt: nat, lid: nat, signalled: nat)
    | Spurious(tid: nat)

  predicate Enabled(s: Server, step: Step) {
    match step
    case Acquire(t, w) => t !in s.asleep && t !in s.woken
    case Retry(t) => t in s.woken && t !in s.asleep
    case Release(c, l, t) => s.asleep != map[] ==> t in s.asleep && t !in s.woken
    case Spurious(t) => t in s.asleep && t !in s.woken
  }

  function Attempt(s: Server, t: nat, w: Want): Server {
    if w.lid in s.locks then s.(asleep := s.asleep[t := w]) else s.(locks := s.locks[w.lid := w.clt])
  }

  function Signal(s: Server, t: nat): Server {
    if t in s.asleep then s.(asleep := s.asleep - {t}, woken := s.woken[t := s.asleep[t]]) else s
  }

  function Next(s: Server, step: Step): Server
    requires Enabled(s, step)
  {
    match step
    case Acquire(t, w) => Attempt(s, t, w)
    case Retry(t) => Attempt(s.(woken := s.woken - {t}), t, s.woken[t])
    case Release(c, l, t) => if MayDrop(s.locks, c, l) then Signal(s.(locks := s.locks - {l}), t) else s
    case Spurious(t) => Signal(s, t)
  }

  ghost predicate IsRun(run: seq<Server>, steps: seq<Step>) {
    && |run| == |steps| + 1 && run[0] == IDLE
    && forall i :: 0 <= i < |steps| ==> Enabled(run[i], steps[i]) && run[i + 1] == Next(run[i], steps[i])
  }

  ghost predicate Someone(m: map<nat, Want>, lid: nat) { exists t :: t in m && m[t].lid == lid }

  /** If the lock is free while someone sleeps on it, somebody who wants it has been
      signalled and is yet to retry. */
  ghost predicate Awaited(s: Server, lid: nat) {
    lid !in s.locks && Someone(s.asleep, lid) ==> Someone(s.woken, lid)
  }

  /** A release of `lid` whose one signal goes to a thread waiting for another lock,
      although threads sleep on `lid` and none of them is on its way. */
  ghost predicate Misdirected(s: Server, step: Step, lid: nat)
    requires Enabled(s, step)
  {
    && step.Release? && step.lid == lid && MayDrop(s.locks, step.clt, lid)
    && Someone(s.asleep, lid) && !Someone(s.woken, lid)
    && (step.signalled in s.asleep ==> s.asleep[step.signalled].lid != lid)
  }

  lemma Keep(m: map<nat, Want>, n: map<nat, Want>, t: nat, lid: nat)
    requires n == m - {t} && (t in m ==> m[t].lid != lid)
    ensures Someone(n, lid) <==> Someone(m, lid)
  {
    if Someone(m, lid) {
      var u :| u in m && m[u].lid == lid;
      assert u in n && n[u] == m[u];
    }
  }

  lemma Extra(m: map<nat, Want>, t: nat, w: Want, lid: nat)
    requires t !in m
    ensures Someone(m[t := w], lid) <==> Someone(m, lid) || w.lid == lid
  {
    var n := m[t := w];
    assert t in n && n[t] == w;
    if Someone(m, lid) {
      var u :| u in m && m[u].lid == lid;
      assert u in n && n[u] == m[u];
    }
  }

  /** A thread that tries for a lock leaves it held, so it cannot strand a sleeper. */
  lemma AttemptAwaits(s: Server, t: nat, w: Want, lid: nat)
    requires t !in s.asleep && (w.lid == lid || Awaited(s, lid))
    ensures Awaited(Attempt(s, t, w), lid)
  {
  }

  lemma SignalAwaits(s: Server, t: nat, lid: nat)
    requires t in s.asleep && t !in s.woken && lid !in s.locks
    ensures Awaited(Signal(s, t), lid) <==>
            s.asleep[t].lid == lid || Someone(s.woken, lid) || !Someone(s.asleep, lid)
  {
    Extra(s.woken, t, s.asleep[t], lid);
    if s.asleep[t].lid != lid {
      Keep(s.asleep, s.asleep - {t}, t, lid);
    }
  }

  lemma RetryAwaits(s: Server, t: nat, lid: nat)
    requires Awaited(s, lid) && Enabled(s, Retry(t))
    ensures Awaited(Next(s, Retry(t)), lid)
  {
    if s.woken[t].lid != lid {
      Keep(s.woken, s.woken - {t}, t, lid);
    }
    AttemptAwaits(s.(woken := s.woken - {t}), t, s.woken[t], lid);
  }

  /** For any number of locks: a step strands the sleepers of a lock exactly when it
      is a misdirected release of that lock. */
  lemma StepAwaits(s: Server, step: Step, lid: nat)
    requires Awaited(s, lid) && Enabled(s, step)
    ensures Awaited(Next(s, step), lid) <==> !Misdirected(s, step, lid)
  {
    match step
    case Acquire(t, w) => AttemptAwaits(s, t, w, lid);
    case Retry(t) => RetryAwaits(s, t, lid);
    case Spurious(t) =>
      if lid !in s.locks {
        SignalAwaits(s, t, lid);
      }
    case Release(c, l, t) =>
      var u := s.(locks := s.locks - {l});
      if MayDrop(s.locks, c, l) && t in s.asleep && lid !in u.locks {
        SignalAwaits(u, t, lid);
      }
  }

  ghost predicate AllAwaited(run: seq<Server>, lid: nat) {
    forall i :: 0 <= i < |run| ==> Awaited(run[i], lid)
  }

  ghost predicate NoneMisdirected(run: seq<Server>, steps: seq<Step>, lid: nat)
    requires IsRun(run, steps)
  {
    forall i :: 0 <= i < |steps| ==> !Misdirected(run[i], steps[i], lid)
  }

  /** In every run, whatever locks the others use, the sleepers of a lock are awaited
      all along if and only if none of its releases is misdirected. */
  lemma {:induction false} NoLostWakeup(run: seq<Server>, steps: seq<Step>, lid: nat)
    requires IsRun(run, steps)
    ensures AllAwaited(run, lid) <==> NoneMisdirected(run, steps, lid)
    decreases |steps|
  {
    if steps == [] {
      assert Awaited(run[0], lid);
    } else {
      var n := |steps| - 1;
      var before, last := run[..n + 1], steps[n];
      NoLostWakeup(before, steps[..n], lid);
      assert run == before + [run[n + 1]] && steps == steps[..n] + [last];
      if Awaited(run[n], lid) {
        StepAwaits(run[n], last, lid);
      } else {
        assert !Awaited(before[n], lid);
      }
    }
  }

  /** Every request of the run is for lock `lid`. */
  ghost predicate OnlyLock(steps: seq<Step>, lid: nat) {
    forall i :: 0 <= i < |steps| ==> steps[i].Acquire? ==> steps[i].want.lid == lid
  }

  ghost predicate AllWant(m: map<nat, Want>, lid: nat) { forall t :: t in m ==> m[t].lid == lid }

  lemma {:induction false} OnlyLockWanted(run: seq<Server>, steps: seq<Step>, lid: nat, i: nat)
    requires IsRun(run, steps) && OnlyLock(steps, lid) && i < |run|
    ensures AllWant(run[i].asleep, lid) && AllWant(run[i].woken, lid)
  {
    if i > 0 {
      OnlyLockWanted(run, steps, lid, i - 1);
    }
  }

  /** While all threads want one lock, no wakeup is lost under any barging: if the
      lock is free and someone sleeps, somebody signalled is yet to retry. */
  lemma OneLockLosesNoWakeup(run: seq<Server>, steps: seq<Step>, lid: nat, i: nat)
    requires IsRun(run, steps) && OnlyLock(steps, lid) && i < |run|
    ensures lid !in run[i].locks && run[i].asleep != map[] ==> run[i].woken != map[]
  {
    forall j | 0 <= j < |steps| ensures !Misdirected(run[j], steps[j], lid) {
      OnlyLockWanted(run, steps, lid, j);
    }
    NoLostWakeup(run, steps, lid);
    assert Awaited(run[i], lid);
    OnlyLockWanted(run, steps, lid, i);
    if run[i].asleep != map[] {
      var t :| t in run[i].asleep;
      assert Someone(run[i].asleep, lid);
    }
  }

  /** With two locks the single condition variable can wake the wrong thread: a
      run after which lock 2 is free, its waiter sleeps and nobody is signalled. */
  lemma TwoLocksLoseWakeup() returns (run: seq<Server>, steps: seq<Step>)
    ensures IsRun(run, steps) && !Awaited(run[|run| - 1], 2)
    ensures 3 in run[|run| - 1].asleep && run[|run| - 1].asleep[3].lid == 2
  {
    var s0 := IDLE;
    steps := [Acquire(0, Want(7, 1)), Acquire(1, Want(8, 2)), Acquire(2, Want(9, 1)), Acquire(3, Want(9, 2)),
              Release(8, 2, 2), Retry(2)];
    var s1 := Next(s0, steps[0]);
    var s2 := Next(s1, steps[1]);
    var s3 := Next(s2, steps[2]);
    var s4 := Next(s3, steps[3]);
    assert s4.locks == map[1 := 7, 2 := 8];
    assert s4.asleep == map[2 := Want(9, 1), 3 := Want(9, 2)] && s4.woken == map[];
    var s5 := Next(s4, steps[4]);
    assert s5.locks == map[1 := 7] && s5.asleep == map[3 := Want(9, 2)] && s5.woken == map[2 := Want(9, 1)];
    var s6 := Next(s5, steps[5]);
    assert s6.locks == map[1 := 7] && s6.woken == map[] && 3 in s6.asleep;
    run := [s0, s1, s2, s3, s4, s5, s6];
    forall i | 0 <= i < |steps| ensures Enabled(run[i], steps[i]) && run[i + 1] == Next(run[i], steps[i]) {
      if i == 0 {} else if i == 1 {} else if i == 2 {} else if i == 3 {} else if i == 4 {} else {}
    }
  }

  // ----------------------------------------------------------- the server object

  class LockServer {
    var locks: map<nat, nat>
    var asleep: map<nat, Want>
    var woken: map<nat, Want>

    ghost function State(): Server reads this { Server(locks, asleep, woken) }

    constructor ()
      ensures State() == IDLE
    {
      locks, asleep, woken := map[], map[], map[];
    }

    method TryGet(clt: nat, lid: nat) returns (ok: bool)
      modifies this`locks
      ensures ok <==> lid !in old(locks)
      ensures locks == GetLock(old(locks), clt, lid)
      ensures locks == if lid in old(locks) then old(locks) else old(locks)[lid := clt]
    {
      ok := lid !in locks;
      if ok {
        locks := locks[lid := clt];
      }
    }

    /** The first part of acquire: up to the grant or to pthread_cond_wait. */
    method AcquireFirst(t: nat, w: Want)
      requires Enabled(State(), Acquire(t, w))
      modifies this
      ensures State() == Next(old(State()), Acquire(t, w))
      ensures if w.lid in old(locks) then locks == old(locks) && asleep == old(asleep)[t := w]
              else locks == old(locks)[w.lid := w.clt] && asleep == old(asleep)
    {
      var ok := TryGet(w.clt, w.lid);
      if !ok {
        asleep := asleep[t := w];
      }
    }

    /** One turn of acquire's loop, from the wakeup on. */
    method AcquireAgain(t: nat)
      requires Enabled(State(), Retry(t))
      modifies this
      ensures State() == Next(old(State()), Retry(t))
      ensures var w := old(woken)[t];
              && woken == old(woken) - {t}
              && if w.lid in old(locks) then locks == old(locks) && asleep == old(asleep)[t := w]
                 else locks == old(locks)[w.lid := w.clt] && asleep == old(asleep)
    {
      var w := woken[t];
      woken := woken - {t};
      var ok := TryGet(w.clt, w.lid);
      if !ok {
        asleep := asleep[t := w];
      }
    }

    /** release; the scheduler picks which sleeper the signal wakes. */
    method ReleaseLock(clt: nat, lid: nat, chosen: nat) returns (r: int, status: int)
      requires Enabled(State(), Release(clt, lid, chosen))
      modifies this
      ensures State() == Next(old(State()), Release(clt, lid, chosen))
      ensures if lid in old(locks) && old(locks)[lid] == clt
              then (r, status) == (0, 0) && locks == old(locks) - {lid}
              else (r, status) == (-1, 1) && State() == old(State())
      ensures status == 0 && old(asleep) != map[] ==>
                asleep == old(asleep) - {chosen} && woken == old(woken)[chosen := old(asleep)[chosen]]
    {
      if lid in locks && locks[lid] == clt {
        locks := locks - {lid};
        if chosen in asleep {
          woken, asleep := woken[chosen := asleep[chosen]], asleep - {chosen};
        }
        r, status := 0, 0;
      } else {
        r, status := -1, 1;
      }
    }
  }
}
