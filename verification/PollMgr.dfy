/** The handshake of block_remove_fd with the poll thread.

    The remover unwatches the descriptor, writes a byte into the poll pipe, sets
    pending_change_ and waits; the poll thread clears the flag and wakes all waiters
    each time it is about to select again.  The remover does its part under the mutex
    the poll thread needs to see the flag, so that is one step.  Condition waits do
    not wake spuriously, and block_remove_fd is not called by the poll thread itself. */
module PollMgr {

  /** Where the poll thread is.  `Selecting` holds the copies of the two sets made
      before select; `Calling` the ready descriptors still to be served and the one
      whose callback is running. */
  datatype Loop =
    | Top
    | BeforeSelect
    | Selecting(r: set<nat>, w: set<nat>)
    | Calling(r: set<nat>, w: set<nat>, running: set<nat>)

  /** A thread inside block_remove_fd; `readded` observes whether its descriptor was
      registered again since. */
  datatype Remover = Remover(fd: nat, woken: bool, readded: bool)

  /** `removed` observes the descriptors whose block_remove_fd has returned and that
      nobody registered since it began. */
  datatype State = State(
    loop: Loop, pending: bool, pipeBytes: nat,
    rfds: set<nat>, wfds: set<nat>, callbacks: set<nat>,
    removers: map<nat, Remover>, removed: set<nat>)

  const START := State(Top, false, 0, {}, {}, {}, map[], {})

  /** select returns when a descriptor or the pipe is ready, or with EINTR. */
  datatype Step =
    | AddCallback(fd: nat, read: bool, write: bool)
    | DelCallback(fd: nat, read: bool, write: bool)
    | RemoveBegin(tid: nat, fd: nat)
    | RemoveEnd(tid: nat)
    | CheckPending
    | CopySets
    | SelectReturns(r: set<nat>, w: set<nat>, pipeReady: bool)
    | Interrupted
    | CallBegin(fd: nat, write: bool)
    | CallEnd
    | CallsDone

  predicate Enabled(s: State, step: Step) {
    match step
    case AddCallback(fd, read, write) => read || write
    case DelCallback(fd, read, write) => read || write
    case RemoveBegin(t, fd) => t !in s.removers
    case RemoveEnd(t) => t in s.removers && s.removers[t].woken
    case CheckPending => s.loop.Top?
    case CopySets => s.loop.BeforeSelect?
    case SelectReturns(r, w, pipeReady) =>
      && s.loop.Selecting? && r <= s.loop.r && w <= s.loop.w && (pipeReady ==> s.pipeBytes > 0)
      && (pipeReady || r != {} || w != {})
    case Interrupted => s.loop.Selecting?
    case CallBegin(fd, write) =>
      s.loop.Calling? && s.loop.running == {} && (if write then s.loop.r == {} && fd in s.loop.w else fd in s.loop.r)
    case CallEnd => s.loop.Calling? && s.loop.running != {}
    case CallsDone => s.loop.Calling? && s.loop.running == {} && s.loop.r == {} && s.loop.w == {}
  }

  function Unwatched(s: State, fd: nat, read: bool, write: bool): State {
    s.(rfds := if read then s.rfds - {fd} else s.rfds, wfds := if write then s.wfds - {fd} else s.wfds,
       pipeBytes := if read && write then s.pipeBytes + 1 else s.pipeBytes)
  }

  function Next(s: State, step: Step): State
    requires Enabled(s, step)
  {
    match step
    case AddCallback(fd, read, write) =>
      s.(rfds := if read then s.rfds + {fd} else s.rfds, wfds := if write then s.wfds + {fd} else s.wfds,
         pipeBytes := s.pipeBytes + 1, callbacks := s.callbacks + {fd},
         removers := map t | t in s.removers ::
                       if s.removers[t].fd == fd then s.removers[t].(readded := true) else s.removers[t],
         removed := s.removed - {fd})
    case DelCallback(fd, read, write) =>
      var u := Unwatched(s, fd, read, write);
      u.(callbacks := if fd !in u.rfds && fd !in u.wfds then s.callbacks - {fd} else s.callbacks)
    case RemoveBegin(t, fd) =>
      Unwatched(s, fd, true, true).(pending := true, removers := s.removers[t := Remover(fd, false, false)])
    case RemoveEnd(t) =>
      s.(callbacks := s.callbacks - {s.removers[t].fd}, removers := s.removers - {t},
         removed := if s.removers[t].readded then s.removed else s.removed + {s.removers[t].fd})
    case CheckPending =>
      s.(loop := BeforeSelect, pending := false,
         removers := if s.pending then map t | t in s.removers :: s.removers[t].(woken := true) else s.removers)
    case CopySets => s.(loop := Selecting(s.rfds, s.wfds))
    case SelectReturns(r, w, pipeReady) =>
      s.(loop := Calling(r, w, {}), pipeBytes := if pipeReady then s.pipeBytes - 1 else s.pipeBytes)
    case Interrupted => s.(loop := Top)
    case CallBegin(fd, write) =>
      s.(loop := Calling(if write then s.loop.r else s.loop.r - {fd}, if write then s.loop.w - {fd} else s.loop.w,
                         if fd in s.callbacks then {fd} else {}))
    case CallEnd => s.(loop := s.loop.(running := {}))
    case CallsDone => s.(loop := Top)
  }

  // -------------------------------------------------------------------- invariant

  /** The poll thread neither runs a callback for `fd` nor holds it in any list. */
  ghost predicate OffLoop(loop: Loop, fd: nat) {
    match loop
    case Top => true
    case BeforeSelect => true
    case Selecting(r, w) => fd !in r && fd !in w
    case Calling(r, w, running) => fd !in r && fd !in w && fd !in running
  }

  ghost predicate Quiet(s: State, fd: nat) {
    fd !in s.rfds && fd !in s.wfds && OffLoop(s.loop, fd)
  }

  ghost predicate RemoverOk(s: State, x: Remover) {
    && (!x.woken ==> s.pending)
    && (!x.readded ==> x.fd !in s.rfds && x.fd !in s.wfds && (x.woken ==> OffLoop(s.loop, x.fd)))
  }

  /** A change that is pending will be seen: there is a byte in the pipe, or the
      poll thread is already past select. */
  ghost predicate ChangeWillBeSeen(s: State) {
    s.pending ==> s.pipeBytes > 0 || s.loop.Calling? || s.loop.Top?
  }

  ghost predicate Inv(s: State) {
    && ChangeWillBeSeen(s)
    && (forall t :: t in s.removers ==> RemoverOk(s, s.removers[t]))
    && (forall fd :: fd in s.removed ==> Quiet(s, fd))
  }

  lemma StepKeeps(s: State, step: Step)
    requires Inv(s) && Enabled(s, step)
    ensures Inv(Next(s, step))
  {
  }

  ghost predicate IsRun(run: seq<State>, steps: seq<Step>) {
    && |run| == |steps| + 1 && run[0] == START
    && forall i :: 0 <= i < |steps| ==> Enabled(run[i], steps[i]) && run[i + 1] == Next(run[i], steps[i])
  }

  lemma {:induction false} RunInv(run: seq<State>, steps: seq<Step>, i: nat)
    requires IsRun(run, steps) && i < |run|
    ensures Inv(run[i])
  {
    if i > 0 {
      RunInv(run, steps, i - 1);
      StepKeeps(run[i - 1], steps[i - 1]);
    }
  }

  /** Once block_remove_fd(fd) has returned without fd being registered meanwhile, no
      callback for fd runs or is queued, then or at any later time, as long as
      nobody registers fd again. */
  lemma {:induction false} NoCallbackAfterRemoval(run: seq<State>, steps: seq<Step>, i: nat, j: nat, tid: nat)
    requires IsRun(run, steps) && i < j < |run| && steps[i] == RemoveEnd(tid)
    requires !run[i].removers[tid].readded
    requires forall k :: i < k < j ==> !(steps[k].AddCallback? && steps[k].fd == run[i].removers[tid].fd)
    ensures Quiet(run[j], run[i].removers[tid].fd)
  {
    var fd := run[i].removers[tid].fd;
    StaysRemoved(run, steps, i + 1, j, fd);
    RunInv(run, steps, j);
  }

  lemma {:induction false} StaysRemoved(run: seq<State>, steps: seq<Step>, i: nat, j: nat, fd: nat)
    requires IsRun(run, steps) && i <= j < |run| && fd in run[i].removed
    requires forall k :: i <= k < j ==> !(steps[k].AddCallback? && steps[k].fd == fd)
    ensures fd in run[j].removed
  {
    if i < j {
      StaysRemoved(run, steps, i, j - 1, fd);
      assert run[j] == Next(run[j - 1], steps[j - 1]);
    }
  }

  // ---------------------------------------------------------------------- release

  predicate PollStep(step: Step) {
    step.CheckPending? || step.CopySets? || step.SelectReturns? || step.CallBegin? || step.CallEnd? || step.CallsDone?
  }

  /** A step the poll thread takes without an event on a descriptor or a signal. */
  predicate Unaided(step: Step) { PollStep(step) && (step.SelectReturns? ==> step.pipeReady) }

  ghost predicate CanMove(s: State) { exists step :: Unaided(step) && Enabled(s, step) }

  predicate Blocked(s: State) { s.loop.Selecting? && s.pipeBytes == 0 }

  lemma SomeMove(s: State) returns (step: Step)
    requires !Blocked(s)
    ensures Unaided(step) && Enabled(s, step)
  {
    step :=
      match s.loop
      case Top => CheckPending
      case BeforeSelect => CopySets
      case Selecting(r, w) => SelectReturns({}, {}, true)
      case Calling(r, w, running) =>
        if running != {} then CallEnd
        else if r != {} then var fd :| fd in r; CallBegin(fd, false)
        else if w != {} then var fd :| fd in w; CallBegin(fd, true)
        else CallsDone;
  }

  /** Exactly when the poll thread is stuck in select. */
  lemma BlockedExactly(s: State)
    ensures CanMove(s) <==> !Blocked(s)
  {
    if !Blocked(s) {
      var step := SomeMove(s);
    }
  }

  predicate Waits(s: State, tid: nat) { tid in s.removers && !s.removers[tid].woken }

  /** In every run, while somebody waits in block_remove_fd there is a byte in the
      pipe or the poll thread is past select, so it is not stuck. */
  lemma PollThreadCanMove(run: seq<State>, steps: seq<Step>, i: nat, tid: nat)
    requires IsRun(run, steps) && i < |run| && Waits(run[i], tid)
    ensures run[i].pipeBytes > 0 || run[i].loop.Calling? || run[i].loop.Top?
    ensures run[i].loop.Selecting? ==> Enabled(run[i], SelectReturns({}, {}, true))
    ensures CanMove(run[i])
  {
    RunInv(run, steps, i);
    assert RemoverOk(run[i], run[i].removers[tid]);
    BlockedExactly(run[i]);
  }

  function Stage(loop: Loop): nat {
    match loop
    case Top => 0 case BeforeSelect => 3 case Selecting(_, _) => 2 case Calling(_, _, _) => 1
  }

  function Work(loop: Loop): nat {
    match loop
    case Calling(r, w, running) => 2 * |r| + 2 * |w| + |running|
    case _ => 0
  }

  ghost predicate Nearer(a: Loop, b: Loop) {
    Stage(b) < Stage(a) || (Stage(b) == Stage(a) && Work(b) < Work(a))
  }

  lemma ServingIsNearer(s: State, fd: nat, write: bool)
    requires Enabled(s, CallBegin(fd, write))
    ensures Nearer(s.loop, Next(s, CallBegin(fd, write)).loop)
  {
    var todo := if write then s.loop.w else s.loop.r;
    assert todo == todo - {fd} + {fd};
  }

  lemma EndingIsNearer(s: State)
    requires Enabled(s, CallEnd)
    ensures Nearer(s.loop, Next(s, CallEnd).loop)
  {
    assert |s.loop.running| > 0;
  }

  /** Each step of the poll thread releases a waiting remover or comes strictly
      nearer to releasing it, and no step of another thread sets it back. */
  lemma WaiterIsReleased(s: State, step: Step, tid: nat)
    requires Inv(s) && Enabled(s, step) && Waits(s, tid)
    ensures var t := Next(s, step);
            && tid in t.removers
            && if PollStep(step) || step.Interrupted? then t.removers[tid].woken || Nearer(s.loop, t.loop)
               else t.loop == s.loop && Waits(t, tid)
  {
    assert RemoverOk(s, s.removers[tid]);
    WaiterMoves(s, step, tid);
  }

  lemma WaiterMoves(s: State, step: Step, tid: nat)
    requires s.pending && Enabled(s, step) && Waits(s, tid)
    ensures var t := Next(s, step);
            && tid in t.removers
            && if PollStep(step) || step.Interrupted? then t.removers[tid].woken || Nearer(s.loop, t.loop)
               else t.loop == s.loop && Waits(t, tid)
  {
    match step
    case CallBegin(fd, write) => ServingIsNearer(s, fd, write);
    case CallEnd => EndingIsNearer(s);
    case _ =>
  }

  /** In every run, as long as somebody waits the poll thread only comes nearer to
      releasing it, strictly so with each step it takes. */
  lemma {:induction false} OnlyNearer(run: seq<State>, steps: seq<Step>, i: nat, j: nat, tid: nat)
    requires IsRun(run, steps) && i <= j < |run| && forall k :: i <= k <= j ==> Waits(run[k], tid)
    ensures run[j].loop == run[i].loop || Nearer(run[i].loop, run[j].loop)
    ensures (exists k :: i <= k < j && PollStep(steps[k])) ==> Nearer(run[i].loop, run[j].loop)
  {
    if i < j {
      OnlyNearer(run, steps, i, j - 1, tid);
      RunInv(run, steps, j - 1);
      WaiterIsReleased(run[j - 1], steps[j - 1], tid);
    }
  }

  /** The poll thread alone releases a waiter: its own steps lead there. */
  lemma {:induction false} ReleasedUnaided(s: State, tid: nat) returns (run: seq<State>, steps: seq<Step>)
    requires Inv(s) && Waits(s, tid)
    ensures |run| == |steps| + 1 && run[0] == s
    ensures forall i :: 0 <= i < |steps| ==>
              Unaided(steps[i]) && Enabled(run[i], steps[i]) && run[i + 1] == Next(run[i], steps[i])
    ensures tid in run[|steps|].removers && run[|steps|].removers[tid].woken
    decreases Stage(s.loop), Work(s.loop)
  {
    assert RemoverOk(s, s.removers[tid]);
    var step := SomeMove(s);
    var t := Next(s, step);
    StepKeeps(s, step);
    WaiterIsReleased(s, step, tid);
    if t.removers[tid].woken {
      run, steps := [s, t], [step];
    } else {
      run, steps := ReleasedUnaided(t, tid);
      run, steps := [s] + run, [step] + steps;
    }
  }

  // -------------------------------------------------------------------- callbacks

  /** Serving a ready descriptor runs its callback, if it has one. */
  lemma ServeExactly(s: State, fd: nat, write: bool)
    requires Enabled(s, CallBegin(fd, write))
    ensures var t := Next(s, CallBegin(fd, write));
            && t.loop.Calling? && (t.loop.running == if fd in s.callbacks then {fd} else {})
            && t.loop.r == (if write then s.loop.r else s.loop.r - {fd})
            && t.loop.w == (if write then s.loop.w - {fd} else s.loop.w)
  {
  }

  /** How often a descriptor is served in steps i..j. */
  function Served(steps: seq<Step>, i: nat, j: nat, fd: nat, write: bool): nat
    requires i <= j <= |steps|
  {
    if i == j then 0 else Served(steps, i, j - 1, fd, write) + (if steps[j - 1] == CallBegin(fd, write) then 1 else 0)
  }

  predicate StillToServe(loop: Loop, fd: nat, write: bool) {
    loop.Calling? && fd in if write then loop.w else loop.r
  }

  lemma {:induction false} ServedOrToServe(run: seq<State>, steps: seq<Step>, i: nat, j: nat, fd: nat, write: bool)
    requires IsRun(run, steps) && i <= j < |run| && forall k :: i <= k <= j ==> run[k].loop.Calling?
    ensures Served(steps, i, j, fd, write) + (if StillToServe(run[j].loop, fd, write) then 1 else 0)
            == if StillToServe(run[i].loop, fd, write) then 1 else 0
  {
    if i < j {
      ServedOrToServe(run, steps, i, j - 1, fd, write);
      assert run[j] == Next(run[j - 1], steps[j - 1]);
    }
  }

  /** In every run, between a return of select and the end of its calls each descriptor
      reported ready is served exactly once, and no other is served. */
  lemma EachReadyServedOnce(run: seq<State>, steps: seq<Step>, i: nat, j: nat, fd: nat, write: bool)
    requires IsRun(run, steps) && i < j < |steps| && steps[i].SelectReturns? && steps[j].CallsDone?
    requires forall k :: i < k <= j ==> run[k].loop.Calling?
    ensures Served(steps, i + 1, j, fd, write)
            == if fd in (if write then steps[i].w else steps[i].r) then 1 else 0
  {
    assert run[i + 1] == Next(run[i], steps[i]);
    ServedOrToServe(run, steps, i + 1, j, fd, write);
  }

  lemma TwoSteps(s: State, fd: nat, write: bool)
    requires s.loop.Top? && fd in (if write then s.wfds else s.rfds)
    ensures Enabled(s, CheckPending) && Enabled(Next(s, CheckPending), CopySets)
    ensures var t := Next(Next(s, CheckPending), CopySets);
            && t.loop == Selecting(s.rfds, s.wfds) && t.callbacks == s.callbacks && t.pipeBytes == s.pipeBytes
  {
  }

  /** A descriptor that is watched and has a callback, once ready, gets it run: from the
      top of the loop select may report it, and then it is served. */
  lemma WatchedIsCalled(s: State, fd: nat, write: bool)
    requires s.loop.Top? && fd in (if write then s.wfds else s.rfds) && fd in s.callbacks
    ensures Enabled(s, CheckPending) && Enabled(Next(s, CheckPending), CopySets)
    ensures var t := Next(Next(s, CheckPending), CopySets);
            var select := SelectReturns(if write then {} else {fd}, if write then {fd} else {}, false);
            && Enabled(t, select) && Enabled(Next(t, select), CallBegin(fd, write))
            && Next(Next(t, select), CallBegin(fd, write)).loop.running == {fd}
  {
    TwoSteps(s, fd, write);
  }

  /** Registering watches the descriptor in the named sets, gives it a callback and
      wakes the poll thread. */
  lemma AddExactly(s: State, fd: nat, read: bool, write: bool)
    requires Enabled(s, AddCallback(fd, read, write))
    ensures var t := Next(s, AddCallback(fd, read, write));
            && (forall x :: x in t.rfds <==> x in s.rfds || (x == fd && read))
            && (forall x :: x in t.wfds <==> x in s.wfds || (x == fd && write))
            && (forall x :: x in t.callbacks <==> x in s.callbacks || x == fd)
            && t.pipeBytes == s.pipeBytes + 1 && t.loop == s.loop && t.pending == s.pending
  {
  }

  /** Unregistering drops the callback exactly if the descriptor is watched no more. */
  lemma DelExactly(s: State, fd: nat, read: bool, write: bool)
    requires Enabled(s, DelCallback(fd, read, write))
    ensures var t := Next(s, DelCallback(fd, read, write));
            && (forall x :: x in t.rfds <==> x in s.rfds && !(x == fd && read))
            && (forall x :: x in t.wfds <==> x in s.wfds && !(x == fd && write))
            && (forall x :: x in t.callbacks <==> x in s.callbacks && (x == fd ==> fd in t.rfds || fd in t.wfds))
            && t.pipeBytes == (if read && write then s.pipeBytes + 1 else s.pipeBytes) && t.loop == s.loop
  {
  }

  /** block_remove_fd begins by unwatching, waking the poll thread and asking to be
      told; it ends by clearing the callback. */
  lemma RemoveExactly(s: State, tid: nat, fd: nat)
    requires Enabled(s, RemoveBegin(tid, fd))
    ensures var t := Next(s, RemoveBegin(tid, fd));
            && (forall x :: x in t.rfds <==> x in s.rfds && x != fd)
            && (forall x :: x in t.wfds <==> x in s.wfds && x != fd)
            && t.callbacks == s.callbacks && t.pending && t.pipeBytes == s.pipeBytes + 1 && Waits(t, tid)
  {
  }

  lemma RemoveEndExactly(s: State, tid: nat)
    requires Enabled(s, RemoveEnd(tid))
    ensures var t := Next(s, RemoveEnd(tid));
            && (forall x :: x in t.callbacks <==> x in s.callbacks && x != s.removers[tid].fd)
            && t.rfds == s.rfds && t.wfds == s.wfds && tid !in t.removers && t.loop == s.loop
  {
  }
}
