/** That the lock service does its work: from every state a run can reach, a client can
    take a lock that is free, and the holder of a lock can release it. */
module LockProgress {
  import opened Messages
  import opened ReplyTable
  import opened R = AtMostOnce
  import opened Delivery
  import P = Progress
  import L = LockServer
  import S = LockOverRpc

  ghost predicate Reaches(nonce: nat, steps: seq<S.LockStep>, s: S.Sys) {
    nonce != 0 && S.Possible(nonce, steps) && S.Exec(nonce, steps) == S.Live(s)
  }

  lemma StepSends(s: S.Sys, step: S.LockStep)
    requires AllSent(s.rpc) && S.CanTake(s, step)
    ensures AllSent(S.Next(s, step).rpc)
  {
    if !step.Grant? && !step.DoRelease? {
      var inner := S.Inner(s, step);
      if ClientSide(inner) {
        ClientStepSends(s.rpc, inner);
      } else {
        ServerStepSends(s.rpc, inner);
      }
    }
  }

  lemma {:induction false} RunInv(nonce: nat, steps: seq<S.LockStep>)
    requires nonce != 0 && S.Possible(nonce, steps)
    ensures S.Exec(nonce, steps).Live? && S.Inv(S.Exec(nonce, steps).sys) && AllSent(S.Exec(nonce, steps).sys.rpc)
  {
    S.LockRunsKeepInv(nonce, steps);
    if steps != [] {
      RunInv(nonce, steps[..|steps| - 1]);
      StepSends(S.Exec(nonce, steps[..|steps| - 1]).sys, steps[|steps| - 1]);
    }
  }

  lemma CanGo(nonce: nat, steps: seq<S.LockStep>, s: S.Sys, step: S.LockStep)
    requires Reaches(nonce, steps, s) && S.Enabled(s, step)
    ensures S.CanTake(s, step)
  {
    S.LockRunsKeepInv(nonce, steps);
    S.EnabledLockStep(s, step);
  }

  lemma Go(nonce: nat, steps: seq<S.LockStep>, s: S.Sys, step: S.LockStep) returns (t: S.Sys)
    requires Reaches(nonce, steps, s) && S.Enabled(s, step)
    ensures S.CanTake(s, step) && t == S.Next(s, step) && Reaches(nonce, steps + [step], t)
  {
    CanGo(nonce, steps, s, step);
    S.RunExtends(nonce, steps, s, step);
    t := S.Next(s, step);
  }

  lemma InOrder(nonce: nat, steps: seq<S.LockStep>, s: S.Sys, c: nat)
    requires Reaches(nonce, steps, s) && c in s.rpc.clients
    ensures Numbered(s.rpc.clients[c])
  {
    RunInv(nonce, steps);
  }

  // ---------------------------------------------------------------------- handlers

  /** The handler of `m` runs on the live instance and its caller still waits. */
  ghost predicate Runs(s: S.Sys, m: Request) {
    m in s.phase && Pending(s.rpc, m.clt, m.xid)
  }

  predicate SameLocks(s: S.Sys, t: S.Sys) {
    t.locks == s.locks && t.spent == s.spent && t.rpc.nonce == s.rpc.nonce
  }

  lemma CanReturn(s: S.Sys, m: Request)
    requires S.PhaseInv(s) && RequestsInv(s.rpc.clients, s.rpc.requests)
    requires LiveInv(s.rpc.nonce, s.rpc.server.hist, s.rpc.log, s.rpc.outputs)
    requires m in s.phase && s.phase[m].Executed?
    ensures S.Enabled(s, S.HandlerReturns(m))
  {
    assert WasSent(s.rpc.clients, m.clt, m.xid) && s.rpc.clients[m.clt].sent[m.xid] == m;
    var run := Run(s.rpc.nonce, m.clt, m.xid);
    assert run in s.rpc.log && run !in s.rpc.outputs;
  }

  lemma ReturnsEffect(s: S.Sys, m: Request)
    requires S.CanTake(s, S.HandlerReturns(m))
    ensures var t := S.Next(s, S.HandlerReturns(m));
            && SameLocks(s, t) && t.rpc.clients == s.rpc.clients && t.rpc.requests == s.rpc.requests
            && ReplyMsg(m.clt, m.xid, S.Status(s.phase[m].status), s.rpc.nonce) in t.rpc.replies
  {
    HandlerDoneExactly(s.rpc, m.clt, m.xid, S.Status(s.phase[m].status));
  }

  lemma PlainEffect(s: S.Sys, step: R.Step)
    requires S.CanTake(s, S.Plain(step))
    ensures var t := S.Next(s, S.Plain(step));
            t.rpc == R.Next(s.rpc, step) && t.locks == s.locks && t.spent == s.spent && t.phase == s.phase
  {
  }

  /** A reply on the network completes the call that waits for it. */
  lemma ReplyReturns(nonce: nat, steps: seq<S.LockStep>, s: S.Sys, m: ReplyMsg) returns (steps': seq<S.LockStep>, t: S.Sys)
    requires Reaches(nonce, steps, s) && Pending(s.rpc, m.clt, m.xid) && m in s.rpc.replies
    ensures Reaches(nonce, steps', t) && steps <= steps' && SameLocks(s, t) && t.rpc.requests == s.rpc.requests
    ensures m.clt in t.rpc.clients && SameStanding(s.rpc.clients[m.clt], t.rpc.clients[m.clt])
    ensures m.xid in t.rpc.clients[m.clt].ended && t.rpc.clients[m.clt].ended[m.xid] == Finished(m.reply, m.from)
  {
    var got, ret := S.Plain(GotReply(m)), S.Plain(Return(m.clt, m.xid));
    InOrder(nonce, steps, s, m.clt);
    var u := Go(nonce, steps, s, got);
    PlainEffect(s, GotReply(m));
    GotReplyExactly(s.rpc, m);
    InOrder(nonce, steps + [got], u, m.clt);
    t := Go(nonce, steps + [got], u, ret);
    PlainEffect(u, Return(m.clt, m.xid));
    ReturnExactly(u.rpc, m.clt, m.xid);
    steps' := steps + [got] + [ret];
  }

  lemma ReturnIsNext(nonce: nat, steps: seq<S.LockStep>, s: S.Sys, m: Request)
    requires Reaches(nonce, steps, s) && m in s.phase && s.phase[m].Executed?
    ensures S.Enabled(s, S.HandlerReturns(m))
  {
    RunInv(nonce, steps);
    CanReturn(s, m);
  }

  /** A handler that has executed returns its status to its caller. */
  lemma StatusReturns(nonce: nat, steps: seq<S.LockStep>, s: S.Sys, m: Request) returns (steps': seq<S.LockStep>, t: S.Sys)
    requires Reaches(nonce, steps, s) && Runs(s, m) && s.phase[m].Executed?
    ensures Reaches(nonce, steps', t) && steps <= steps' && SameLocks(s, t) && t.rpc.requests == s.rpc.requests
    ensures m.clt in t.rpc.clients && SameStanding(s.rpc.clients[m.clt], t.rpc.clients[m.clt])
    ensures m.xid in t.rpc.clients[m.clt].ended
    ensures t.rpc.clients[m.clt].ended[m.xid] == Finished(S.Status(s.phase[m].status), s.rpc.nonce)
  {
    ReturnIsNext(nonce, steps, s, m);
    var u := Go(nonce, steps, s, S.HandlerReturns(m));
    ReturnsEffect(s, m);
    steps', t := ReplyReturns(nonce, steps + [S.HandlerReturns(m)], u,
                              ReplyMsg(m.clt, m.xid, S.Status(s.phase[m].status), s.rpc.nonce));
  }

  // ------------------------------------------------------------------ acquire, release

  lemma GrantEffect(s: S.Sys, m: Request)
    requires S.CanTake(s, S.Grant(m)) && m in s.phase
    ensures var t := S.Next(s, S.Grant(m));
            && t.rpc == s.rpc && t.spent == s.spent && m in t.phase && t.phase[m] == S.Executed(S.OK)
            && t.locks == s.locks[S.Lid(m) := m.clt]
  {
  }

  lemma NotSpent(nonce: nat, steps: seq<S.LockStep>, s: S.Sys, m: Request)
    requires Reaches(nonce, steps, s) && Runs(s, m)
    ensures m !in s.spent && m in s.rpc.requests && m.srv == s.rpc.nonce
  {
    S.LockRunsKeepInv(nonce, steps);
    assert S.PhaseInv(s) && S.SpentInv(s);
  }

  /** A running acquire whose lock is free can be granted and return OK: its caller then
      holds the lock. */
  lemma AcquireCanSucceed(nonce: nat, steps: seq<S.LockStep>, s: S.Sys, m: Request)
    returns (steps': seq<S.LockStep>, t: S.Sys)
    requires Reaches(nonce, steps, s) && Runs(s, m) && s.phase[m].Ready? && m.proc == S.ACQUIRE && S.Lid(m) !in s.locks
    ensures Reaches(nonce, steps', t) && steps <= steps' && t.rpc.nonce == s.rpc.nonce
    ensures S.Holds(t, m) && t.locks == s.locks[S.Lid(m) := m.clt]
    ensures SameStanding(s.rpc.clients[m.clt], t.rpc.clients[m.clt])
  {
    NotSpent(nonce, steps, s, m);
    var u := Go(nonce, steps, s, S.Grant(m));
    GrantEffect(s, m);
    steps', t := StatusReturns(nonce, steps + [S.Grant(m)], u, m);
  }

  lemma ReleaseEffect(s: S.Sys, m: Request)
    requires S.CanTake(s, S.DoRelease(m)) && m in s.phase && S.Lid(m) in s.locks && s.locks[S.Lid(m)] == m.clt
    ensures var t := S.Next(s, S.DoRelease(m));
            && t.rpc == s.rpc && t.spent == s.spent && m in t.phase && t.phase[m] == S.Executed(S.OK)
            && t.locks == s.locks - {S.Lid(m)}
  {
  }

  lemma ReleaseFits(nonce: nat, steps: seq<S.LockStep>, s: S.Sys, m: Request)
    requires Reaches(nonce, steps, s) && S.Enabled(s, S.DoRelease(m))
    ensures S.Lid(m) in s.locks && s.locks[S.Lid(m)] == m.clt
  {
    S.LockRunsKeepInv(nonce, steps);
    S.ReleaseSucceeds(s, m);
  }

  /** A running release frees its lock and can return OK. */
  lemma ReleaseCanSucceed(nonce: nat, steps: seq<S.LockStep>, s: S.Sys, m: Request)
    returns (steps': seq<S.LockStep>, t: S.Sys)
    requires Reaches(nonce, steps, s) && Runs(s, m) && s.phase[m].Ready? && m.proc == S.RELEASE
    ensures Reaches(nonce, steps', t) && steps <= steps' && t.rpc.nonce == s.rpc.nonce
    ensures S.ReturnedOk(t, m) && t.locks == s.locks - {S.Lid(m)}
  {
    NotSpent(nonce, steps, s, m);
    ReleaseFits(nonce, steps, s, m);
    var u := Go(nonce, steps, s, S.DoRelease(m));
    ReleaseEffect(s, m);
    steps', t := StatusReturns(nonce, steps + [S.DoRelease(m)], u, m);
  }

  // --------------------------------------------------------------------- from a call

  lemma DispatchEffect(s: S.Sys, m: Request)
    requires S.CanTake(s, S.Dispatch(m)) && VerdictOn(s.rpc, m).New?
    ensures var t := S.Next(s, S.Dispatch(m));
            && SameLocks(s, t) && t.rpc.clients == s.rpc.clients && t.rpc.requests == s.rpc.requests
            && t.phase == (if S.IsLockCall(m) then s.phase[m := S.Ready] else s.phase)
            && t.rpc.outputs == s.rpc.outputs && t.rpc == R.Next(s.rpc, Classify(m))
  {
    ClassifyEffect(s.rpc, m);
  }

  lemma Unasked(nonce: nat, steps: seq<S.LockStep>, s: S.Sys, m: Request)
    requires Reaches(nonce, steps, s) && Pending(s.rpc, m.clt, m.xid) && Run(s.rpc.nonce, m.clt, m.xid) !in s.rpc.log
    ensures m.xid !in Of(s.rpc.server.hist, m.clt).asked
  {
    S.LockRunsKeepInv(nonce, steps);
    if m.xid in Of(s.rpc.server.hist, m.clt).asked {
      P.AskedIsIssued(s.rpc, m.clt, m.xid);
    }
  }

  lemma WillBeNew(nonce: nat, steps: seq<S.LockStep>, s: S.Sys, m: Request)
    requires Reaches(nonce, steps, s) && Pending(s.rpc, m.clt, m.xid) && R.Enabled(s.rpc, Classify(m))
    requires m.xid !in Of(s.rpc.server.hist, m.clt).asked
    ensures R.CanTake(s.rpc, Classify(m)) && VerdictOn(s.rpc, m).New?
    ensures m.xid in Of(R.Next(s.rpc, Classify(m)).server.hist, m.clt).issued
  {
    S.LockRunsKeepInv(nonce, steps);
    P.UnaskedIsNew(s.rpc, m);
  }

  /** A request that has not run yet arrives and its handler starts. */
  lemma HandlerStarts(nonce: nat, steps: seq<S.LockStep>, s: S.Sys, m: Request) returns (steps': seq<S.LockStep>, t: S.Sys)
    requires Reaches(nonce, steps, s) && Pending(s.rpc, m.clt, m.xid) && m in s.rpc.requests
    requires ForThisInstance(s.rpc, m) && Run(s.rpc.nonce, m.clt, m.xid) !in s.rpc.log
    ensures Reaches(nonce, steps', t) && steps <= steps' && SameLocks(s, t)
    ensures t.rpc.clients == s.rpc.clients && t.rpc.requests == s.rpc.requests && t.rpc.outputs == s.rpc.outputs
    ensures t.phase == if S.IsLockCall(m) then s.phase[m := S.Ready] else s.phase
    ensures m.xid in Of(t.rpc.server.hist, m.clt).issued
  {
    var admit := S.Plain(AdmitClient(m));
    Unasked(nonce, steps, s, m);
    var u := Go(nonce, steps, s, admit);
    PlainEffect(s, AdmitClient(m));
    AdmittedCanBeChecked(s.rpc, m);
    WillBeNew(nonce, steps + [admit], u, m);
    t := Go(nonce, steps + [admit], u, S.Dispatch(m));
    DispatchEffect(u, m);
    steps' := steps + [admit] + [S.Dispatch(m)];
  }

  lemma NewNotLogged(s: R.State, c: nat)
    requires R.Inv(s) && c in s.clients
    ensures Run(s.nonce, c, s.clients[c].nextXid) !in s.log
  {
    var x := s.clients[c].nextXid;
    assert Numbered(s.clients[c]) && !WasSent(s.clients, c, x);
    assert Run(s.nonce, c, x) in s.log ==> Addressed(s.clients, c, x, s.nonce);
  }

  /** A client bound to the live instance that may still make calls. */
  predicate Ready(s: S.Sys, c: nat) {
    && c in s.rpc.clients && s.rpc.clients[c].bindDone && s.rpc.clients[c].srvNonce == s.rpc.nonce
    && !s.rpc.clients[c].destroyWait
  }

  lemma AcquireCallEffect(s: S.Sys, c: nat, lid: nat)
    requires S.CanTake(s, S.AcquireCall(c, lid)) && s.rpc.clients[c].window != []
    ensures var t, m := S.Next(s, S.AcquireCall(c, lid)), S.NewRequest(s.rpc, c, S.ACQUIRE, [c, lid]);
            && SameLocks(s, t) && Pending(t.rpc, c, m.xid) && m in t.rpc.requests && t.rpc.log == s.rpc.log
            && c in t.rpc.clients && t.rpc.clients[c].bindDone == s.rpc.clients[c].bindDone
            && t.rpc.clients[c].srvNonce == s.rpc.clients[c].srvNonce
            && t.rpc.clients[c].destroyWait == s.rpc.clients[c].destroyWait
  {
    BeginExactly(s.rpc, c, S.ACQUIRE, [c, lid]);
  }

  lemma CallerFacts(nonce: nat, steps: seq<S.LockStep>, s: S.Sys, c: nat)
    requires Reaches(nonce, steps, s) && c in s.rpc.clients
    ensures s.rpc.clients[c].window != [] && Run(s.rpc.nonce, c, s.rpc.clients[c].nextXid) !in s.rpc.log
  {
    RunInv(nonce, steps);
    assert Numbered(s.rpc.clients[c]);
    NewNotLogged(s.rpc, c);
  }

  /** A client makes the call and its handler starts. */
  lemma AcquireStarts(nonce: nat, steps: seq<S.LockStep>, s: S.Sys, c: nat, lid: nat)
    returns (steps': seq<S.LockStep>, t: S.Sys, g: Request)
    requires Reaches(nonce, steps, s) && Ready(s, c)
    ensures Reaches(nonce, steps', t) && steps <= steps' && SameLocks(s, t) && Ready(t, c)
    ensures g.clt == c && g.proc == S.ACQUIRE && S.Lid(g) == lid && Runs(t, g) && t.phase[g].Ready?
  {
    CallerFacts(nonce, steps, s, c);
    var call := S.AcquireCall(c, lid);
    var a := Go(nonce, steps, s, call);
    g := S.NewRequest(s.rpc, c, S.ACQUIRE, [c, lid]);
    AcquireCallEffect(s, c, lid);
    steps', t := HandlerStarts(nonce, steps + [call], a, g);
  }

  /** From every reachable state, a client bound to the live instance can take any lock
      that is free. */
  lemma FreeLockCanBeTaken(nonce: nat, steps: seq<S.LockStep>, s: S.Sys, c: nat, lid: nat)
    returns (steps': seq<S.LockStep>, t: S.Sys, g: Request)
    requires Reaches(nonce, steps, s) && Ready(s, c) && lid !in s.locks
    ensures Reaches(nonce, steps', t) && steps <= steps' && t.rpc.nonce == s.rpc.nonce
    ensures g.clt == c && S.Lid(g) == lid && S.Holds(t, g) && t.locks == s.locks[lid := c] && Ready(t, c)
  {
    var more, a;
    more, a, g := AcquireStarts(nonce, steps, s, c, lid);
    steps', t := AcquireCanSucceed(nonce, more, a, g);
  }

  lemma ReleaseCallEffect(s: S.Sys, c: nat, g: Request)
    requires S.CanTake(s, S.ReleaseCall(c, g)) && s.rpc.clients[c].window != []
    ensures var t, m := S.Next(s, S.ReleaseCall(c, g)), S.NewRequest(s.rpc, c, S.RELEASE, [c, S.Lid(g)]);
            && t.locks == s.locks && t.rpc.nonce == s.rpc.nonce && t.spent == s.spent + {g}
            && Pending(t.rpc, c, m.xid) && m in t.rpc.requests && t.rpc.log == s.rpc.log
  {
    BeginExactly(s.rpc, c, S.RELEASE, [c, S.Lid(g)]);
  }

  lemma ReleaseStarts(nonce: nat, steps: seq<S.LockStep>, s: S.Sys, g: Request)
    returns (steps': seq<S.LockStep>, t: S.Sys, m: Request)
    requires Reaches(nonce, steps, s) && S.Holds(s, g) && Ready(s, g.clt)
    ensures Reaches(nonce, steps', t) && steps <= steps' && t.locks == s.locks
    ensures m.clt == g.clt && m.proc == S.RELEASE && S.Lid(m) == S.Lid(g) && Runs(t, m) && t.phase[m].Ready?
  {
    CallerFacts(nonce, steps, s, g.clt);
    var call := S.ReleaseCall(g.clt, g);
    var a := Go(nonce, steps, s, call);
    m := S.NewRequest(s.rpc, g.clt, S.RELEASE, [g.clt, S.Lid(g)]);
    ReleaseCallEffect(s, g.clt, g);
    steps', t := HandlerStarts(nonce, steps + [call], a, m);
  }

  /** From every reachable state, the holder of a lock can release it. */
  lemma HolderCanRelease(nonce: nat, steps: seq<S.LockStep>, s: S.Sys, g: Request)
    returns (steps': seq<S.LockStep>, t: S.Sys, m: Request)
    requires Reaches(nonce, steps, s) && S.Holds(s, g) && Ready(s, g.clt)
    ensures Reaches(nonce, steps', t) && steps <= steps'
    ensures m.clt == g.clt && m.proc == S.RELEASE && S.Lid(m) == S.Lid(g) && S.ReturnedOk(t, m)
    ensures t.locks == s.locks - {S.Lid(g)}
  {
    var more, a;
    more, a, m := ReleaseStarts(nonce, steps, s, g);
    steps', t := ReleaseCanSucceed(nonce, more, a, m);
  }

  // ------------------------------------------------------------------- from scratch

  lemma JoinEffect(s: S.Sys, c: nat)
    requires S.CanTake(s, S.Plain(Join(c)))
    ensures var t := S.Next(s, S.Plain(Join(c)));
            t.rpc == s.rpc.(clients := s.rpc.clients[c := NEW_CLIENT]) && SameLocks(s, t)
  {
  }

  lemma BindCalled(nonce: nat, steps: seq<S.LockStep>, s: S.Sys, c: nat)
    returns (steps': seq<S.LockStep>, t: S.Sys, m: Request)
    requires Reaches(nonce, steps, s) && c != 0 && c !in s.rpc.clients
    ensures Reaches(nonce, steps', t) && steps <= steps' && SameLocks(s, t)
    ensures Pending(t.rpc, c, 1) && m in t.rpc.requests && m.clt == c && m.xid == 1 && m.proc == BIND && m.srv == 0
    ensures Run(t.rpc.nonce, c, 1) !in t.rpc.log && !t.rpc.clients[c].destroyWait
  {
    var join, bind := S.Plain(Join(c)), S.Plain(Begin(c, BIND, []));
    var u := Go(nonce, steps, s, join);
    JoinEffect(s, c);
    CallerFacts(nonce, steps + [join], u, c);
    t := Go(nonce, steps + [join], u, bind);
    PlainEffect(u, Begin(c, BIND, []));
    BeginExactly(u.rpc, c, BIND, []);
    m := Request(c, 1, BIND, [], 0, 0);
    steps' := steps + [join] + [bind];
  }

  lemma BindCanEnd(s: S.Sys, m: Request)
    requires RequestsInv(s.rpc.clients, s.rpc.requests)
    requires LiveInv(s.rpc.nonce, s.rpc.server.hist, s.rpc.log, s.rpc.outputs)
    requires m in s.rpc.requests && m.proc == BIND && m.xid in Of(s.rpc.server.hist, m.clt).issued
    requires Run(s.rpc.nonce, m.clt, m.xid) !in s.rpc.outputs
    ensures S.Enabled(s, S.Plain(HandlerDone(m.clt, m.xid, Reply(0, [s.rpc.nonce]))))
  {
    assert s.rpc.clients[m.clt].sent[m.xid] == m;
  }

  lemma BindReplied(nonce: nat, steps: seq<S.LockStep>, s: S.Sys, m: Request) returns (steps': seq<S.LockStep>, t: S.Sys)
    requires Reaches(nonce, steps, s) && Pending(s.rpc, m.clt, m.xid)
    requires m in s.rpc.requests && m.proc == BIND && m.xid in Of(s.rpc.server.hist, m.clt).issued
    requires Run(s.rpc.nonce, m.clt, m.xid) !in s.rpc.outputs
    ensures Reaches(nonce, steps', t) && steps <= steps' && SameLocks(s, t)
    ensures t.rpc.clients == s.rpc.clients && t.rpc.requests == s.rpc.requests
    ensures ReplyMsg(m.clt, m.xid, Reply(0, [s.rpc.nonce]), s.rpc.nonce) in t.rpc.replies
  {
    RunInv(nonce, steps);
    BindCanEnd(s, m);
    var done := HandlerDone(m.clt, m.xid, Reply(0, [s.rpc.nonce]));
    t := Go(nonce, steps, s, S.Plain(done));
    PlainEffect(s, done);
    HandlerDoneExactly(s.rpc, m.clt, m.xid, Reply(0, [s.rpc.nonce]));
    steps' := steps + [S.Plain(done)];
  }

  lemma NotOutput(nonce: nat, steps: seq<S.LockStep>, s: S.Sys, r: Run)
    requires Reaches(nonce, steps, s) && r !in s.rpc.log
    ensures r !in s.rpc.outputs
  {
    RunInv(nonce, steps);
    assert OutputInv(s.rpc.clients, s.rpc.log, s.rpc.outputs);
  }

  lemma Bound(nonce: nat, steps: seq<S.LockStep>, s: S.Sys, m: Request) returns (steps': seq<S.LockStep>, t: S.Sys)
    requires Reaches(nonce, steps, s) && m.clt in s.rpc.clients && !s.rpc.clients[m.clt].destroyWait
    requires m.xid in s.rpc.clients[m.clt].ended && m.xid in s.rpc.clients[m.clt].sent
    requires s.rpc.clients[m.clt].sent[m.xid].proc == BIND
    requires s.rpc.clients[m.clt].ended[m.xid] == Finished(Reply(0, [s.rpc.nonce]), s.rpc.nonce)
    ensures Reaches(nonce, steps', t) && steps <= steps' && SameLocks(s, t) && Ready(t, m.clt)
  {
    var step := BindReturned(m.clt, m.xid);
    t := Go(nonce, steps, s, S.Plain(step));
    PlainEffect(s, step);
    BindExactly(s.rpc, m.clt, m.xid);
    steps' := steps + [S.Plain(step)];
  }

  /** From every reachable state a new lock client can bind to the live instance; with
      FreeLockCanBeTaken and HolderCanRelease it can take and release any free lock. */
  lemma NewClientCanBind(nonce: nat, steps: seq<S.LockStep>, s: S.Sys, c: nat) returns (steps': seq<S.LockStep>, t: S.Sys)
    requires Reaches(nonce, steps, s) && c != 0 && c !in s.rpc.clients
    ensures Reaches(nonce, steps', t) && steps <= steps' && SameLocks(s, t) && Ready(t, c)
  {
    var a1, a, m := BindCalled(nonce, steps, s, c);
    NotOutput(nonce, a1, a, Run(a.rpc.nonce, c, 1));
    var b1, b := HandlerStarts(nonce, a1, a, m);
    var d1, d := BindReplied(nonce, b1, b, m);
    var e1, e := ReplyReturns(nonce, d1, d, ReplyMsg(c, 1, Reply(0, [a.rpc.nonce]), a.rpc.nonce));
    SentKept(nonce, e1, e, m);
    steps', t := Bound(nonce, e1, e, m);
  }

  lemma SentKept(nonce: nat, steps: seq<S.LockStep>, s: S.Sys, m: Request)
    requires Reaches(nonce, steps, s) && m in s.rpc.requests
    ensures m.clt in s.rpc.clients && m.xid in s.rpc.clients[m.clt].sent && s.rpc.clients[m.clt].sent[m.xid] == m
  {
    RunInv(nonce, steps);
    assert WasSent(s.rpc.clients, m.clt, m.xid);
  }
}
