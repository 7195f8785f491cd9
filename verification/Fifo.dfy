/** The blocking queue: one mutex, one condition variable for each direction.  A
    thread that has to wait is asleep until a signal moves it to the woken ones; a
    woken thread looks again once it holds the mutex, and others may be quicker. */
module Fifo {

  /** `max` is the limit, 0 for none.  Producers carry the item they want to add. */
  datatype Queue<T> = Queue(
    q: seq<T>, max: nat,
    asleepC: set<nat>, wokenC: set<nat>,
    asleepP: map<nat, T>, wokenP: map<nat, T>)

  function Make<T>(max: nat): Queue<T> { Queue([], max, {}, {}, map[], map[]) }

  predicate HasSpace<T>(f: Queue<T>) { f.max == 0 || |f.q| < f.max }

  /** pthread_cond_signal wakes one sleeper, if there is one; `who` is the one. */
  predicate Picks<T>(f: Queue<T>, who: nat) { f.asleepC != {} ==> who in f.asleepC }
  predicate PicksP<T>(f: Queue<T>, who: nat) { f.asleepP.Keys != {} ==> who in f.asleepP }

  function Push<T>(f: Queue<T>, e: T, who: nat): Queue<T> {
    if who in f.asleepC
    then f.(q := f.q + [e], asleepC := f.asleepC - {who}, wokenC := f.wokenC + {who})
    else f.(q := f.q + [e])
  }

  function Pop<T>(f: Queue<T>, who: nat): Queue<T>
    requires f.q != []
  {
    var g := f.(q := f.q[1..]);
    if f.max > 0 && |g.q| < f.max && who in f.asleepP
    then g.(asleepP := f.asleepP - {who}, wokenP := f.wokenP[who := f.asleepP[who]])
    else g
  }

  datatype Step<T> =
    | Enq(t: nat, e: T, blocking: bool, who: nat)
    | EnqAgain(t: nat, who: nat)
    | Deq(t: nat, who: nat)
    | DeqAgain(t: nat, who: nat)
    | Spurious(t: nat)

  predicate Waiting<T>(f: Queue<T>, t: nat) {
    t in f.asleepC || t in f.wokenC || t in f.asleepP || t in f.wokenP
  }

  predicate Enabled<T>(f: Queue<T>, step: Step<T>) {
    match step
    case Enq(t, e, blocking, who) => !Waiting(f, t) && Picks(f, who)
    case EnqAgain(t, who) => t in f.wokenP && Picks(f, who)
    case Deq(t, who) => !Waiting(f, t) && PicksP(f, who)
    case DeqAgain(t, who) => t in f.wokenC && PicksP(f, who)
    case Spurious(t) => t in f.asleepC || t in f.asleepP
  }

  /** One turn of enq's loop; a non-blocking enq that finds no space gives up. */
  function EnqTurn<T>(f: Queue<T>, t: nat, e: T, blocking: bool, who: nat): Queue<T> {
    if HasSpace(f) then Push(f, e, who)
    else if blocking then f.(asleepP := f.asleepP[t := e])
    else f
  }

  function DeqTurn<T>(f: Queue<T>, t: nat, who: nat): Queue<T> {
    if f.q == [] then f.(asleepC := f.asleepC + {t}) else Pop(f, who)
  }

  function Next<T>(f: Queue<T>, step: Step<T>): Queue<T>
    requires Enabled(f, step)
  {
    match step
    case Enq(t, e, blocking, who) => EnqTurn(f, t, e, blocking, who)
    case EnqAgain(t, who) => EnqTurn(f.(wokenP := f.wokenP - {t}), t, f.wokenP[t], true, who)
    case Deq(t, who) => DeqTurn(f, t, who)
    case DeqAgain(t, who) => DeqTurn(f.(wokenC := f.wokenC - {t}), t, who)
    case Spurious(t) =>
      if t in f.asleepC then f.(asleepC := f.asleepC - {t}, wokenC := f.wokenC + {t})
      else f.(asleepP := f.asleepP - {t}, wokenP := f.wokenP[t := f.asleepP[t]])
  }

  /** The item a step adds and the item it takes. */
  function Added<T>(f: Queue<T>, step: Step<T>): seq<T>
    requires Enabled(f, step)
  {
    match step
    case Enq(t, e, blocking, who) => if HasSpace(f) then [e] else []
    case EnqAgain(t, who) => if HasSpace(f) then [f.wokenP[t]] else []
    case _ => []
  }

  function Taken<T>(f: Queue<T>, step: Step<T>): seq<T> {
    if (step.Deq? || step.DeqAgain?) && f.q != [] then [f.q[0]] else []
  }

  // -------------------------------------------------------------------- invariant

  /** No wakeup is lost: while a consumer sleeps, the items are no more than the
      consumers already on their way, and likewise for producers and free slots. */
  ghost predicate Inv<T>(f: Queue<T>) {
    && f.asleepC !! f.wokenC && f.asleepP.Keys !! f.wokenP.Keys
    && (f.max > 0 ==> |f.q| <= f.max)
    && (f.asleepC != {} ==> |f.q| <= |f.wokenC|)
    && (f.asleepP.Keys != {} ==> f.max > 0 && f.max - |f.q| <= |f.wokenP.Keys|)
  }

  lemma AddOne(s: set<nat>, t: nat)
    requires t !in s
    ensures |s + {t}| == |s| + 1
  {
  }

  lemma TakeOne(s: set<nat>, t: nat)
    requires t in s
    ensures |s - {t}| == |s| - 1
  {
  }

  lemma EnqTurnKeeps<T>(f: Queue<T>, t: nat, e: T, blocking: bool, who: nat)
    requires Picks(f, who) && f.asleepC !! f.wokenC && f.asleepP.Keys !! f.wokenP.Keys
    requires t !in f.asleepP && t !in f.wokenP
    requires f.max > 0 ==> |f.q| <= f.max
    requires f.asleepC != {} ==> |f.q| <= |f.wokenC|
    requires f.asleepP.Keys != {} ==> f.max > 0 && f.max - |f.q| - (if HasSpace(f) then 1 else 0) <= |f.wokenP.Keys|
    ensures Inv(EnqTurn(f, t, e, blocking, who))
  {
  }

  lemma EnqAgainKeeps<T>(f: Queue<T>, t: nat, who: nat)
    requires Inv(f) && t in f.wokenP && Picks(f, who)
    ensures Inv(EnqTurn(f.(wokenP := f.wokenP - {t}), t, f.wokenP[t], true, who))
  {
  }

  lemma DeqTurnKeeps<T>(f: Queue<T>, t: nat, who: nat)
    requires PicksP(f, who) && f.asleepC !! f.wokenC && f.asleepP.Keys !! f.wokenP.Keys && t !in f.wokenC
    requires f.max > 0 ==> |f.q| <= f.max
    requires f.asleepC != {} ==> |f.q| - 1 <= |f.wokenC|
    requires f.asleepP.Keys != {} ==> f.max > 0 && f.max - |f.q| <= |f.wokenP.Keys|
    ensures Inv(DeqTurn(f, t, who))
  {
  }

  lemma SpuriousKeeps<T>(f: Queue<T>, t: nat)
    requires Inv(f) && Enabled(f, Spurious(t))
    ensures Inv(Next(f, Spurious(t)))
  {
  }

  lemma StepKeeps<T>(f: Queue<T>, step: Step<T>)
    requires Inv(f) && Enabled(f, step)
    ensures Inv(Next(f, step))
  {
    match step
    case Enq(t, e, blocking, who) => EnqTurnKeeps(f, t, e, blocking, who);
    case EnqAgain(t, who) => EnqAgainKeeps(f, t, who);
    case Deq(t, who) => DeqTurnKeeps(f, t, who);
    case DeqAgain(t, who) =>
      TakeOne(f.wokenC, t);
      DeqTurnKeeps(f.(wokenC := f.wokenC - {t}), t, who);
    case Spurious(t) => SpuriousKeeps(f, t);
  }

  ghost predicate IsRun<T(!new)>(run: seq<Queue<T>>, steps: seq<Step<T>>, max: nat) {
    && |run| == |steps| + 1 && run[0] == Make(max)
    && forall i :: 0 <= i < |steps| ==> Enabled(run[i], steps[i]) && run[i + 1] == Next(run[i], steps[i])
  }

  ghost function AllAdded<T(!new)>(run: seq<Queue<T>>, steps: seq<Step<T>>, max: nat, i: nat): seq<T>
    requires IsRun(run, steps, max) && i < |run|
  {
    if i == 0 then [] else AllAdded(run, steps, max, i - 1) + Added(run[i - 1], steps[i - 1])
  }

  ghost function AllTaken<T(!new)>(run: seq<Queue<T>>, steps: seq<Step<T>>, max: nat, i: nat): seq<T>
    requires IsRun(run, steps, max) && i < |run|
  {
    if i == 0 then [] else AllTaken(run, steps, max, i - 1) + Taken(run[i - 1], steps[i - 1])
  }

  lemma StepMoves<T>(f: Queue<T>, step: Step<T>)
    requires Enabled(f, step)
    ensures f.q + Added(f, step) == Taken(f, step) + Next(f, step).q && Next(f, step).max == f.max
  {
  }

  lemma Shift<T>(out: seq<T>, q: seq<T>, added: seq<T>, taken: seq<T>, rest: seq<T>)
    requires q + added == taken + rest
    ensures (out + q) + added == (out + taken) + rest
  {
    assert (out + q) + added == out + (q + added);
    assert out + (taken + rest) == (out + taken) + rest;
  }

  /** In every interleaving what came out is what went in, in order, up to what is
      still queued; the limit holds; and no wakeup is lost. */
  lemma {:induction false} FirstInFirstOut<T(!new)>(run: seq<Queue<T>>, steps: seq<Step<T>>, max: nat, i: nat)
    requires IsRun(run, steps, max) && i < |run|
    ensures AllAdded(run, steps, max, i) == AllTaken(run, steps, max, i) + run[i].q
    ensures run[i].max == max && Inv(run[i])
  {
    if i > 0 {
      FirstInFirstOut(run, steps, max, i - 1);
      var f, step := run[i - 1], steps[i - 1];
      StepKeeps(f, step);
      StepMoves(f, step);
      Shift(AllTaken(run, steps, max, i - 1), f.q, Added(f, step), Taken(f, step), run[i].q);
    }
  }

  // ------------------------------------------------------------ the queue object

  class FifoQueue<T(0)> {
    var q: seq<T>
    const max: nat
    var asleepC: set<nat>
    var wokenC: set<nat>
    var asleepP: map<nat, T>
    var wokenP: map<nat, T>

    ghost function State(): Queue<T> reads this { Queue(q, max, asleepC, wokenC, asleepP, wokenP) }

    constructor (limit: nat)
      ensures State() == Make(limit)
    {
      q, max, asleepC, wokenC, asleepP, wokenP := [], limit, {}, {}, map[], map[];
    }

    /** A turn of enq's loop, from holding the mutex to releasing it. */
    method EnqOnce(t: nat, e: T, blocking: bool, who: nat) returns (done: bool, ok: bool)
      requires Picks(State(), who)
      modifies this
      ensures State() == EnqTurn(old(State()), t, e, blocking, who)
      ensures done <==> HasSpace(old(State())) || !blocking
      ensures ok <==> HasSpace(old(State()))
    {
      if max == 0 || |q| < max {
        q := q + [e];
        if who in asleepC {
          asleepC, wokenC := asleepC - {who}, wokenC + {who};
        }
        return true, true;
      }
      if blocking {
        asleepP := asleepP[t := e];
        return false, false;
      }
      return true, false;
    }

    /** A turn of deq's loop. */
    method DeqOnce(t: nat, who: nat) returns (done: bool, e: seq<T>)
      requires PicksP(State(), who)
      modifies this
      ensures State() == DeqTurn(old(State()), t, who)
      ensures done <==> old(q) != []
      ensures e == if old(q) == [] then [] else [old(q)[0]]
    {
      if |q| == 0 {
        asleepC := asleepC + {t};
        return false, [];
      }
      e := [q[0]];
      q := q[1..];
      if max > 0 && |q| < max && who in asleepP {
        asleepP, wokenP := asleepP - {who}, wokenP[who := asleepP[who]];
      }
      done := true;
    }
  }
}
