/** The lock service: lock clients, the RPC protocol and the lock server together.

    Callers are only assumed to release once per grant: a thread whose acquire call
    returned OK makes at most one release call for it.  Several threads may share a
    client, messages are lost, duplicated and reordered, calls time out and the
    server restarts, as in the RPC protocol itself. */
module LockOverRpc {
  import opened Messages
  import opened ReplyTable
  import opened R = AtMostOnce
  import L = LockServer

  const ACQUIRE := 0x7001
  const RELEASE := 0x7002
  const OK := 0
  const RETRY := 1

  datatype Phase = Ready | Executed(status: nat)

  /** A token is the request it came from.  `unreleased` are the acquire requests
      that were granted and whose caller has not called release; `unexecuted` are
      the release requests that no handler has executed. */
  datatype Sys = Sys(
    rpc: R.State,
    locks: map<nat, nat>,           // lock_map_ of the live instance
    phase: map<Request, Phase>,     // lock handlers running on the live instance
    spent: set<Request>,            // acquire calls whose caller has called release
    unreleased: set<Request>, unexecuted: set<Request>,
    owner: map<int, Request>)       // the token behind each entry of `locks`

  datatype LockStep =
    | Plain(step: R.Step)
    | AcquireCall(clt: nat, lid: nat)
    | ReleaseCall(clt: nat, grant: Request)
    | Dispatch(req: Request)
    | Grant(req: Request)
    | DoRelease(req: Request)
    | HandlerReturns(req: Request)
    | Crash(newNonce: nat)

  function InitSys(nonce: nat): Sys {
    Sys(R.InitState(nonce), map[], map[], {}, {}, {}, map[])
  }

  predicate IsLockCall(m: Request) { m.proc == ACQUIRE || m.proc == RELEASE }

  /** The stubs pass the client id and the lock id. */
  predicate StubForm(m: Request) { |m.args| == 2 && m.args[0] == m.clt && m.args[1] >= 0 }

  function Lid(m: Request): nat { if StubForm(m) then m.args[1] else 0 }

  function RunOf(m: Request): Run { Run(m.srv, m.clt, m.xid) }

  /** RPC steps that touch neither the locks nor the discipline.  A lock client
      binds once, and that is the first call it makes. */
  predicate IsPlain(s: Sys, step: R.Step) {
    match step
    case Begin(c, proc, args) =>
      proc != ACQUIRE && proc != RELEASE
      && (proc == BIND && c in s.rpc.clients ==> s.rpc.clients[c].nextXid == 1)
    case HandlerDone(c, x, r) =>
      c in s.rpc.clients && x in s.rpc.clients[c].sent && !IsLockCall(s.rpc.clients[c].sent[x])
    case Classify(m) => false
    case Restart(n) => false
    case _ => true
  }

  predicate ReturnedOk(s: Sys, m: Request) {
    && m in s.rpc.requests && m.clt in s.rpc.clients && m.xid in s.rpc.clients[m.clt].ended
    && s.rpc.clients[m.clt].ended[m.xid].Finished? && s.rpc.clients[m.clt].ended[m.xid].reply.ret == OK
  }

  function Status(status: int): Reply { Reply(status, [if status == OK then 0 else -1]) }

  predicate RpcEnabled(s: Sys, step: LockStep) {
    match step
    case Plain(r) => R.Enabled(s.rpc, r)
    case AcquireCall(c, lid) => R.Enabled(s.rpc, Begin(c, ACQUIRE, [c, lid]))
    case ReleaseCall(c, g) => R.Enabled(s.rpc, Begin(c, RELEASE, [c, Lid(g)]))
    case Dispatch(m) => R.Enabled(s.rpc, Classify(m))
    case HandlerReturns(m) =>
      m in s.phase && s.phase[m].Executed? && R.Enabled(s.rpc, HandlerDone(m.clt, m.xid, Status(s.phase[m].status)))
    case Crash(n) => R.Enabled(s.rpc, Restart(n))
    case _ => true
  }

  predicate Enabled(s: Sys, step: LockStep) {
    && RpcEnabled(s, step)
    && match step
       case Plain(r) => IsPlain(s, r)
       case ReleaseCall(c, g) => g.clt == c && g.proc == ACQUIRE && ReturnedOk(s, g) && g !in s.spent
       case Grant(m) => m in s.phase && s.phase[m].Ready? && m.proc == ACQUIRE && Lid(m) !in s.locks
       case DoRelease(m) => m in s.phase && s.phase[m].Ready? && m.proc == RELEASE
       case _ => true
  }

  /** The RPC step inside a step, if there is one. */
  function Inner(s: Sys, step: LockStep): R.Step
    requires RpcEnabled(s, step) && !step.Grant? && !step.DoRelease?
  {
    match step
    case Plain(r) => r
    case AcquireCall(c, lid) => Begin(c, ACQUIRE, [c, lid])
    case ReleaseCall(c, g) => Begin(c, RELEASE, [c, Lid(g)])
    case Dispatch(m) => Classify(m)
    case HandlerReturns(m) => HandlerDone(m.clt, m.xid, Status(s.phase[m].status))
    case Crash(n) => Restart(n)
  }

  predicate CanTake(s: Sys, step: LockStep) {
    Enabled(s, step) && (!step.Grant? && !step.DoRelease? ==> R.CanTake(s.rpc, Inner(s, step)))
  }

  /** get_lock succeeded in the handler of `m`. */
  function Granted(s: Sys, m: Request): Sys {
    s.(locks := L.GetLock(s.locks, m.clt, Lid(m)), phase := s.phase[m := Executed(OK)],
       unreleased := s.unreleased + {m}, owner := s.owner[Lid(m) := m])
  }

  function Released(s: Sys, m: Request): Sys {
    var ok := L.MayDrop(s.locks, m.clt, Lid(m));
    s.(locks := L.DropLock(s.locks, m.clt, Lid(m)),
       phase := s.phase[m := Executed(if ok then OK else RETRY)],
       unexecuted := s.unexecuted - {m},
       owner := if ok then s.owner - {Lid(m)} else s.owner)
  }

  /** The caller turns its grant `g` into the release request `m`. */
  function Spend(s: Sys, g: Request, m: Request): Sys {
    s.(spent := s.spent + {g}, unreleased := s.unreleased - {g}, unexecuted := s.unexecuted + {m},
       owner := if m.srv == s.rpc.nonce then s.owner[Lid(m) := m] else s.owner)
  }

  function NewRequest(rpc: R.State, c: nat, proc: nat, args: seq<int>): Request
    requires c in rpc.clients && rpc.clients[c].window != []
  {
    Request(c, rpc.clients[c].nextXid, proc, args, rpc.clients[c].srvNonce, rpc.clients[c].window[0])
  }

  function Next(s: Sys, step: LockStep): Sys
    requires CanTake(s, step)
  {
    match step
    case Plain(r) => s.(rpc := R.Next(s.rpc, r))
    case AcquireCall(c, lid) => s.(rpc := R.Next(s.rpc, Inner(s, step)))
    case ReleaseCall(c, g) =>
      Spend(s, g, NewRequest(s.rpc, c, RELEASE, [c, Lid(g)])).(rpc := R.Next(s.rpc, Inner(s, step)))
    case Dispatch(m) =>
      s.(rpc := R.Next(s.rpc, Inner(s, step)),
         phase := if R.VerdictOn(s.rpc, m).New? && IsLockCall(m) then s.phase[m := Ready] else s.phase)
    case Grant(m) => Granted(s, m)
    case DoRelease(m) => Released(s, m)
    case HandlerReturns(m) => s.(rpc := R.Next(s.rpc, Inner(s, step)), phase := s.phase - {m})
    case Crash(n) => s.(rpc := R.Next(s.rpc, Restart(n)), locks := map[], phase := map[], owner := map[])
  }

  // ----------------------------------------------------------------- invariant

  /** One bind per client, so all its other requests name one instance. */
  ghost predicate OneBind(cl: Client) {
    && (forall x :: x in cl.sent && cl.sent[x].proc == BIND ==> x == 1)
    && (forall x :: x in cl.sent && cl.sent[x].proc != BIND ==> cl.sent[x].srv == cl.srvNonce)
    && (cl.srvNonce != 0 ==> 1 in cl.ended && cl.ended[1].Finished? && cl.ended[1].reply.body == [cl.srvNonce])
  }

  ghost predicate BindInv(clients: map<nat, Client>) {
    forall c :: c in clients ==> OneBind(clients[c])
  }

  ghost predicate StubInv(requests: set<Request>) {
    forall m :: m in requests && IsLockCall(m) ==> StubForm(m)
  }

  ghost predicate TokenInv(s: Sys) {
    && (forall m :: m in s.unreleased ==> m in s.rpc.requests && m.proc == ACQUIRE && m !in s.spent)
    && (forall m :: m in s.unexecuted ==> m in s.rpc.requests && m.proc == RELEASE)
  }

  ghost predicate OwnerInv(nonce: nat, locks: map<nat, nat>, owner: map<int, Request>, tokens: set<Request>) {
    && (forall l: nat :: l in locks <==> l in owner)
    && (forall l: nat :: l in locks ==>
          owner[l] in tokens && owner[l].srv == nonce && Lid(owner[l]) == l && locks[l] == owner[l].clt)
    && (forall m :: m in tokens && m.srv == nonce ==> Lid(m) in owner && owner[Lid(m)] == m)
  }

  /** A running lock handler was started once and has not returned; a release it
      has not executed is still counted, and so is a grant it has made. */
  ghost predicate PhaseInv(s: Sys) {
    forall m :: m in s.phase ==>
      && m in s.rpc.requests && IsLockCall(m) && m.srv == s.rpc.nonce
      && RunOf(m) in s.rpc.log && RunOf(m) !in s.rpc.outputs
      && (m.proc == RELEASE && s.phase[m].Ready? ==> m in s.unexecuted)
      && (m.proc == ACQUIRE && s.phase[m].Executed? && m !in s.spent ==> m in s.unreleased)
  }

  /** A release that never ran on the live instance is still to be executed. */
  ghost predicate UnexecutedInv(s: Sys) {
    forall m :: m in s.rpc.requests && m.proc == RELEASE && m.srv == s.rpc.nonce && RunOf(m) !in s.rpc.log ==>
      m in s.unexecuted
  }

  /** An answered acquire whose caller has not called release is a live grant. */
  ghost predicate GrantInv(s: Sys) {
    forall m :: m in s.rpc.requests && m.proc == ACQUIRE && RunOf(m) in s.rpc.outputs && m !in s.spent ==>
      m in s.unreleased
  }

  /** Only an answered acquire can have been followed by its release. */
  ghost predicate SpentInv(s: Sys) {
    forall m :: m in s.spent ==> m in s.rpc.requests && m.proc == ACQUIRE && RunOf(m) in s.rpc.outputs
  }

  ghost predicate LockCore(s: Sys) {
    && BindInv(s.rpc.clients)
    && StubInv(s.rpc.requests)
    && TokenInv(s)
    && OwnerInv(s.rpc.nonce, s.locks, s.owner, s.unreleased + s.unexecuted)
    && PhaseInv(s)
    && UnexecutedInv(s)
    && GrantInv(s)
    && SpentInv(s)
  }

  ghost predicate Inv(s: Sys) { R.Inv(s.rpc) && LockCore(s) }

  // --------------------------------------------------- what the RPC layer gives

  /** A plain step other than Begin leaves requests, log and nonce alone. */
  lemma QuietStep(s: Sys, step: R.Step)
    requires R.CanTake(s.rpc, step) && IsPlain(s, step) && !step.Begin?
    ensures var t := R.Next(s.rpc, step);
            t.requests == s.rpc.requests && t.log == s.rpc.log && t.nonce == s.rpc.nonce
  {
  }

  lemma OutputsOfPlain(s: Sys, step: R.Step, m: Request)
    requires R.Inv(s.rpc) && R.CanTake(s.rpc, step) && IsPlain(s, step)
    requires m in s.rpc.requests && IsLockCall(m)
    ensures RunOf(m) in R.Next(s.rpc, step).outputs <==> RunOf(m) in s.rpc.outputs
  {
    if step.HandlerDone? {
      assert WasSent(s.rpc.clients, m.clt, m.xid) && s.rpc.clients[m.clt].sent[m.xid] == m;
    }
  }

  // -------------------------------------------------------------- preservation

  lemma ReturnKeepsOneBind(cl: Client, x: nat)
    requires OneBind(cl) && Numbered(cl) && x in cl.calls
    ensures OneBind(EndCall(cl, x))
  {
  }

  lemma BindReturnedKeepsOneBind(c: nat, cl: Client, x: nat, nonces: set<nat>)
    requires OneBind(cl) && Headers(c, cl, nonces) && x in cl.ended && x in cl.sent && cl.sent[x].proc == BIND
    requires cl.ended[x].Finished? && |cl.ended[x].reply.body| == 1 && cl.ended[x].reply.body[0] >= 0
    ensures OneBind(Binding(cl, x))
  {
  }

  lemma ClientKeepsOneBind(s: Sys, step: R.Step)
    requires ClientsInv(s.rpc.clients, s.rpc.nonces, s.rpc.outputs)
    requires R.CanTake(s.rpc, step) && BindInv(s.rpc.clients) && IsPlain(s, step) && !step.Begin?
    ensures BindInv(R.Next(s.rpc, step).clients)
  {
    if step.BindReturned? {
      BindReturnedKeepsOneBind(step.clt, s.rpc.clients[step.clt], step.xid, s.rpc.nonces);
    } else if step.Return? {
      ReturnKeepsOneBind(s.rpc.clients[step.clt], step.xid);
    }
  }

  lemma BeginKeepsOneBind(cl: Client, c: nat, proc: nat, args: seq<int>)
    requires OneBind(cl) && Numbered(cl) && (proc == BIND ==> cl.nextXid == 1)
    ensures OneBind(BeginCall(c, cl, proc, args))
  {
  }

  /** The RPC state moved without touching lock requests, runs or their replies. */
  lemma QuietKeeps(s: Sys, rpc: R.State)
    requires LockCore(s) && BindInv(rpc.clients)
    requires rpc.requests == s.rpc.requests && rpc.log == s.rpc.log && rpc.nonce == s.rpc.nonce
    requires forall m :: m in s.rpc.requests && IsLockCall(m) ==> (RunOf(m) in rpc.outputs <==> RunOf(m) in s.rpc.outputs)
    ensures LockCore(s.(rpc := rpc))
  {
  }

  lemma PlainKeeps(s: Sys, step: R.Step)
    requires Inv(s) && CanTake(s, Plain(step)) && !step.Begin?
    ensures LockCore(Next(s, Plain(step)))
  {
    ClientKeepsOneBind(s, step);
    QuietStep(s, step);
    forall m | m in s.rpc.requests && IsLockCall(m)
      ensures RunOf(m) in R.Next(s.rpc, step).outputs <==> RunOf(m) in s.rpc.outputs
    {
      OutputsOfPlain(s, step, m);
    }
    QuietKeeps(s, R.Next(s.rpc, step));
  }

  /** A request with a new xid has not run anywhere. */
  lemma FreshRequest(rpc: R.State, c: nat, proc: nat, args: seq<int>)
    requires R.Core(rpc) && c in rpc.clients && rpc.clients[c].window != []
    ensures var m := NewRequest(rpc, c, proc, args);
            m !in rpc.requests && RunOf(m) !in rpc.log && RunOf(m) !in rpc.outputs
  {
  }

  lemma BeginEffect(s: Sys, c: nat, proc: nat, args: seq<int>)
    requires R.CanTake(s.rpc, Begin(c, proc, args))
    ensures var t := R.Next(s.rpc, Begin(c, proc, args));
            && t.requests == s.rpc.requests + {NewRequest(s.rpc, c, proc, args)}
            && t.log == s.rpc.log && t.nonce == s.rpc.nonce && t.outputs == s.rpc.outputs
            && t.clients == s.rpc.clients[c := BeginCall(c, s.rpc.clients[c], proc, args)]
  {
  }

  /** A call begins that is not a release. */
  lemma OtherBeginKeeps(s: Sys, rpc: R.State, m: Request)
    requires LockCore(s) && BindInv(rpc.clients)
    requires rpc.requests == s.rpc.requests + {m} && rpc.log == s.rpc.log
    requires rpc.nonce == s.rpc.nonce && rpc.outputs == s.rpc.outputs
    requires m.proc != RELEASE && (m.proc == ACQUIRE ==> StubForm(m)) && RunOf(m) !in s.rpc.outputs
    ensures LockCore(s.(rpc := rpc))
  {
  }

  lemma BeginKeepsBind(s: Sys, c: nat, proc: nat, args: seq<int>)
    requires R.Core(s.rpc) && BindInv(s.rpc.clients) && R.CanTake(s.rpc, Begin(c, proc, args))
    requires proc == BIND ==> s.rpc.clients[c].nextXid == 1
    ensures BindInv(R.Next(s.rpc, Begin(c, proc, args)).clients)
  {
    assert OneBind(s.rpc.clients[c]) && Numbered(s.rpc.clients[c]);
    BeginKeepsOneBind(s.rpc.clients[c], c, proc, args);
  }

  lemma BeginKeeps(s: Sys, c: nat, proc: nat, args: seq<int>)
    requires Inv(s) && R.CanTake(s.rpc, Begin(c, proc, args)) && proc != RELEASE
    requires proc == BIND ==> s.rpc.clients[c].nextXid == 1
    requires proc == ACQUIRE ==> |args| == 2 && args[0] == c && args[1] >= 0
    ensures LockCore(s.(rpc := R.Next(s.rpc, Begin(c, proc, args))))
  {
    BeginKeepsBind(s, c, proc, args);
    BeginEffect(s, c, proc, args);
    FreshRequest(s.rpc, c, proc, args);
    OtherBeginKeeps(s, R.Next(s.rpc, Begin(c, proc, args)), NewRequest(s.rpc, c, proc, args));
  }

  /** A grant that its caller may still release is counted, on the instance that
      the caller's release will name. */
  lemma GrantIsCounted(s: Sys, g: Request)
    requires Inv(s) && g.proc == ACQUIRE && ReturnedOk(s, g) && g !in s.spent
    ensures g in s.unreleased && g.srv == s.rpc.clients[g.clt].srvNonce && RunOf(g) in s.rpc.outputs
  {
    var cl := s.rpc.clients[g.clt];
    assert WasSent(s.rpc.clients, g.clt, g.xid) && cl.sent[g.xid] == g;
    assert OneBind(cl) && Headers(g.clt, cl, s.rpc.nonces) && Results(g.clt, cl, s.rpc.outputs);
    var out := cl.ended[g.xid];
    assert Produced(s.rpc.outputs, g.clt, g.xid, out);
    assert Run(out.from, g.clt, g.xid) in s.rpc.log;
    assert Addressed(s.rpc.clients, g.clt, g.xid, out.from);
    assert RunOf(g) in s.rpc.outputs;
  }

  lemma OwnerMoves(nonce: nat, locks: map<nat, nat>, owner: map<int, Request>, tokens: set<Request>, g: Request, m: Request)
    requires OwnerInv(nonce, locks, owner, tokens) && g in tokens && m !in tokens
    requires m.srv == g.srv && m.clt == g.clt && Lid(m) == Lid(g)
    ensures OwnerInv(nonce, locks, if m.srv == nonce then owner[Lid(m) := m] else owner, tokens - {g} + {m})
  {
  }

  lemma SpendKeeps(s: Sys, rpc: R.State, g: Request, m: Request)
    requires LockCore(s) && BindInv(rpc.clients)
    requires rpc.requests == s.rpc.requests + {m} && rpc.log == s.rpc.log
    requires rpc.nonce == s.rpc.nonce && rpc.outputs == s.rpc.outputs
    requires m !in s.rpc.requests && m.proc == RELEASE && StubForm(m)
    requires g in s.unreleased && RunOf(g) in s.rpc.outputs && m.srv == g.srv && m.clt == g.clt && Lid(m) == Lid(g)
    ensures LockCore(Spend(s, g, m).(rpc := rpc))
  {
    OwnerMoves(s.rpc.nonce, s.locks, s.owner, s.unreleased + s.unexecuted, g, m);
    assert s.unreleased + s.unexecuted - {g} + {m} == (s.unreleased - {g}) + (s.unexecuted + {m});
  }

  lemma ReleaseCallKeeps(s: Sys, c: nat, g: Request)
    requires Inv(s) && CanTake(s, ReleaseCall(c, g))
    ensures LockCore(Next(s, ReleaseCall(c, g)))
  {
    var args := [c, Lid(g)];
    GrantIsCounted(s, g);
    BeginKeepsBind(s, c, RELEASE, args);
    BeginEffect(s, c, RELEASE, args);
    FreshRequest(s.rpc, c, RELEASE, args);
    SpendKeeps(s, R.Next(s.rpc, Begin(c, RELEASE, args)), g, NewRequest(s.rpc, c, RELEASE, args));
  }

  lemma NewNeverRan(rpc: R.State, m: Request)
    requires InstanceInv(rpc.server) && LiveInv(rpc.nonce, rpc.server.hist, rpc.log, rpc.outputs)
    requires R.CanTake(rpc, Classify(m)) && R.VerdictOn(rpc, m).New?
    ensures Run(rpc.nonce, m.clt, m.xid) !in rpc.log
  {
    AskHasEffect(rpc.server, m.clt, m.xid, m.xidRep);
  }

  /** At-most-once at work: a handler starts only for a call that never ran here,
      so a release that starts is one still counted as unexecuted. */
  lemma StartKeeps(s: Sys, rpc: R.State, m: Request)
    requires LockCore(s) && m in s.rpc.requests && RequestsInv(s.rpc.clients, s.rpc.requests)
    requires rpc.requests == s.rpc.requests && rpc.clients == s.rpc.clients
    requires rpc.nonce == s.rpc.nonce && rpc.outputs == s.rpc.outputs
    requires Run(s.rpc.nonce, m.clt, m.xid) !in s.rpc.log && Run(s.rpc.nonce, m.clt, m.xid) !in s.rpc.outputs
    requires rpc.log == s.rpc.log + [Run(s.rpc.nonce, m.clt, m.xid)]
    requires IsLockCall(m) ==> m.srv == s.rpc.nonce
    ensures LockCore(s.(rpc := rpc, phase := if IsLockCall(m) then s.phase[m := Ready] else s.phase))
  {
    var t := s.(rpc := rpc, phase := if IsLockCall(m) then s.phase[m := Ready] else s.phase);
    assert UnexecutedInv(t);
    assert PhaseInv(t);
  }

  lemma DispatchKeeps(s: Sys, m: Request)
    requires Inv(s) && CanTake(s, Dispatch(m))
    ensures LockCore(Next(s, Dispatch(m)))
  {
    ClassifyEffect(s.rpc, m);
    RequestInOrder(s.rpc, m);
    if R.VerdictOn(s.rpc, m).New? {
      NewNeverRan(s.rpc, m);
      StartKeeps(s, R.Next(s.rpc, Classify(m)), m);
    } else {
      QuietKeeps(s, R.Next(s.rpc, Classify(m)));
    }
  }

  lemma OwnerGains(nonce: nat, locks: map<nat, nat>, owner: map<int, Request>, tokens: set<Request>, m: Request)
    requires OwnerInv(nonce, locks, owner, tokens) && m.srv == nonce && Lid(m) !in locks
    ensures OwnerInv(nonce, L.GetLock(locks, m.clt, Lid(m)), owner[Lid(m) := m], tokens + {m})
  {
  }

  lemma GrantKeeps(s: Sys, m: Request)
    requires LockCore(s) && Enabled(s, Grant(m))
    ensures LockCore(Granted(s, m))
  {
    var t := Granted(s, m);
    OwnerGains(s.rpc.nonce, s.locks, s.owner, s.unreleased + s.unexecuted, m);
    assert t.unreleased + t.unexecuted == s.unreleased + s.unexecuted + {m};
  }

  lemma OwnerDrops(nonce: nat, locks: map<nat, nat>, owner: map<int, Request>, tokens: set<Request>, m: Request)
    requires OwnerInv(nonce, locks, owner, tokens) && m in tokens && m.srv == nonce
    ensures L.MayDrop(locks, m.clt, Lid(m))
    ensures OwnerInv(nonce, locks - {Lid(m)}, owner - {Lid(m)}, tokens - {m})
  {
  }

  /** A release allowed by the discipline finds its lock and its owner. */
  lemma ReleaseSucceeds(s: Sys, m: Request)
    requires LockCore(s) && Enabled(s, DoRelease(m))
    ensures m in s.unexecuted && m.srv == s.rpc.nonce && L.MayDrop(s.locks, m.clt, Lid(m))
  {
  }

  lemma DoReleaseKeeps(s: Sys, m: Request)
    requires LockCore(s) && Enabled(s, DoRelease(m))
    ensures LockCore(Released(s, m))
  {
    var t := Released(s, m);
    ReleaseSucceeds(s, m);
    OwnerDrops(s.rpc.nonce, s.locks, s.owner, s.unreleased + s.unexecuted, m);
    assert t.unreleased + t.unexecuted == s.unreleased + s.unexecuted - {m};
    assert PhaseInv(t);
  }

  lemma HandlerEffect(s: Sys, m: Request, r: Reply)
    requires R.CanTake(s.rpc, HandlerDone(m.clt, m.xid, r))
    ensures var t := R.Next(s.rpc, HandlerDone(m.clt, m.xid, r));
            && t.requests == s.rpc.requests && t.clients == s.rpc.clients
            && t.nonce == s.rpc.nonce && t.log == s.rpc.log
            && t.outputs == s.rpc.outputs[Run(s.rpc.nonce, m.clt, m.xid) := r]
  {
  }

  lemma FinishKeeps(s: Sys, rpc: R.State, m: Request, r: Reply)
    requires LockCore(s) && RequestsInv(s.rpc.clients, s.rpc.requests)
    requires m in s.phase && s.phase[m].Executed?
    requires rpc.requests == s.rpc.requests && rpc.clients == s.rpc.clients
    requires rpc.nonce == s.rpc.nonce && rpc.log == s.rpc.log
    requires rpc.outputs == s.rpc.outputs[RunOf(m) := r]
    ensures LockCore(s.(rpc := rpc, phase := s.phase - {m}))
  {
  }

  lemma HandlerReturnsKeeps(s: Sys, m: Request)
    requires LockCore(s) && RequestsInv(s.rpc.clients, s.rpc.requests) && CanTake(s, HandlerReturns(m))
    ensures LockCore(Next(s, HandlerReturns(m)))
  {
    var r := Status(s.phase[m].status);
    HandlerEffect(s, m, r);
    FinishKeeps(s, R.Next(s.rpc, HandlerDone(m.clt, m.xid, r)), m, r);
  }

  lemma CrashKeeps(s: Sys, n: nat)
    requires LockCore(s) && CanTake(s, Crash(n))
    requires ClientsInv(s.rpc.clients, s.rpc.nonces, s.rpc.outputs) && RequestsInv(s.rpc.clients, s.rpc.requests)
    ensures LockCore(Next(s, Crash(n)))
  {
    forall m | m in s.rpc.requests && m.proc != BIND ensures m.srv != n {
      RequestInOrder(s.rpc, m);
    }
    NewInstanceKeeps(s, R.Next(s.rpc, Restart(n)));
  }

  lemma NewInstanceKeeps(s: Sys, rpc: R.State)
    requires LockCore(s) && rpc.clients == s.rpc.clients && rpc.requests == s.rpc.requests
    requires rpc.log == s.rpc.log && rpc.outputs == s.rpc.outputs
    requires forall m :: m in s.rpc.requests && m.proc != BIND ==> m.srv != rpc.nonce
    ensures LockCore(s.(rpc := rpc, locks := map[], phase := map[], owner := map[]))
  {
  }

  lemma LockStepKeeps(s: Sys, step: LockStep)
    requires Inv(s) && CanTake(s, step)
    ensures LockCore(Next(s, step))
  {
    match step
    case Plain(r) =>
      if r.Begin? {
        BeginKeeps(s, r.clt, r.proc, r.args);
      } else {
        PlainKeeps(s, r);
      }
    case AcquireCall(c, lid) => BeginKeeps(s, c, ACQUIRE, [c, lid]);
    case ReleaseCall(c, g) => ReleaseCallKeeps(s, c, g);
    case Dispatch(m) => DispatchKeeps(s, m);
    case Grant(m) => GrantKeeps(s, m);
    case DoRelease(m) => DoReleaseKeeps(s, m);
    case HandlerReturns(m) => HandlerReturnsKeeps(s, m);
    case Crash(n) => CrashKeeps(s, n);
  }

  lemma EnabledLockStep(s: Sys, step: LockStep)
    requires Inv(s) && Enabled(s, step)
    ensures CanTake(s, step) && R.Inv(Next(s, step).rpc)
  {
    if !step.Grant? && !step.DoRelease? {
      R.StepKeeps(s.rpc, Inner(s, step));
    }
  }

  // ---------------------------------------------------------------------- runs

  datatype LockRun = Live(sys: Sys) | Stuck

  ghost function Exec(nonce: nat, steps: seq<LockStep>): LockRun {
    if steps == [] then Live(InitSys(nonce))
    else
      match Exec(nonce, steps[..|steps| - 1])
      case Stuck => Stuck
      case Live(s) => if CanTake(s, steps[|steps| - 1]) then Live(Next(s, steps[|steps| - 1])) else Stuck
  }

  ghost predicate Possible(nonce: nat, steps: seq<LockStep>) {
    steps == [] ||
    var before := Exec(nonce, steps[..|steps| - 1]);
    Possible(nonce, steps[..|steps| - 1]) && (before.Live? ==> Enabled(before.sys, steps[|steps| - 1]))
  }

  lemma {:induction false} LockRunsKeepInv(nonce: nat, steps: seq<LockStep>)
    requires nonce != 0 && Possible(nonce, steps)
    ensures Exec(nonce, steps).Live? && Inv(Exec(nonce, steps).sys)
  {
    if steps == [] {
      FreshInv();
    } else {
      LockRunsKeepInv(nonce, steps[..|steps| - 1]);
      var s, step := Exec(nonce, steps[..|steps| - 1]).sys, steps[|steps| - 1];
      EnabledLockStep(s, step);
      LockStepKeeps(s, step);
    }
  }

  lemma RunExtends(nonce: nat, steps: seq<LockStep>, s: Sys, step: LockStep)
    requires Possible(nonce, steps) && Exec(nonce, steps) == Live(s) && CanTake(s, step)
    ensures Possible(nonce, steps + [step]) && Exec(nonce, steps + [step]) == Live(Next(s, step))
  {
    assert (steps + [step])[..|steps|] == steps;
  }

  /** The grants of `lid` by the live instance that are not yet released, and the
      release requests for it that the live instance has not executed. */
  ghost function Claims(s: Sys, lid: nat): set<Request> {
    set m | m in s.unreleased + s.unexecuted && m.srv == s.rpc.nonce && Lid(m) == lid
  }

  /** In every run and for every lock, grants not released plus releases not
      executed are exactly one when the lock is in the map and zero when it is not;
      the one belongs to the client recorded in the map. */
  lemma AtMostOneHolder(nonce: nat, steps: seq<LockStep>, lid: nat)
    requires nonce != 0 && Possible(nonce, steps)
    ensures Exec(nonce, steps).Live?
    ensures var s := Exec(nonce, steps).sys;
            && |Claims(s, lid)| == (if lid in s.locks then 1 else 0)
            && (forall m :: m in Claims(s, lid) ==> lid in s.locks && s.locks[lid] == m.clt)
  {
    LockRunsKeepInv(nonce, steps);
    ClaimsOfOwner(Exec(nonce, steps).sys, lid);
  }

  lemma ClaimsOfOwner(s: Sys, lid: nat)
    requires OwnerInv(s.rpc.nonce, s.locks, s.owner, s.unreleased + s.unexecuted)
    ensures |Claims(s, lid)| == (if lid in s.locks then 1 else 0)
    ensures forall m :: m in Claims(s, lid) ==> lid in s.locks && s.locks[lid] == m.clt
  {
    if lid in s.locks {
      assert Claims(s, lid) == {s.owner[lid]};
    } else {
      assert Claims(s, lid) == {};
    }
  }

  /** The caller of acquire call `g` holds its lock: the call returned OK from the
      live instance and the caller has not called release for it. */
  predicate Holds(s: Sys, g: Request) {
    g.proc == ACQUIRE && ReturnedOk(s, g) && g !in s.spent && g.srv == s.rpc.nonce
  }

  /** Two acquire calls that both returned OK and whose callers have not released
      are the same call, if the live instance granted them the same lock. */
  lemma MutualExclusion(nonce: nat, steps: seq<LockStep>, g: Request, h: Request)
    requires nonce != 0 && Possible(nonce, steps)
    ensures Exec(nonce, steps).Live?
    ensures var s := Exec(nonce, steps).sys;
            Holds(s, g) && Holds(s, h) && Lid(g) == Lid(h) ==> g == h
  {
    LockRunsKeepInv(nonce, steps);
    var s := Exec(nonce, steps).sys;
    if Holds(s, g) && Holds(s, h) && Lid(g) == Lid(h) {
      GrantIsCounted(s, g);
      GrantIsCounted(s, h);
      assert s.owner[Lid(g)] == g && s.owner[Lid(h)] == h;
    }
  }

  /** No release ever fails: each one executed finds the lock held by its client. */
  lemma ReleasesNeverRetry(nonce: nat, steps: seq<LockStep>, m: Request)
    requires nonce != 0 && Possible(nonce, steps + [DoRelease(m)])
    ensures Exec(nonce, steps).Live? && Exec(nonce, steps + [DoRelease(m)]).Live?
    ensures var s, t := Exec(nonce, steps).sys, Exec(nonce, steps + [DoRelease(m)]).sys;
            && Lid(m) in s.locks && s.locks[Lid(m)] == m.clt && Lid(m) !in t.locks
            && m in t.phase && t.phase[m] == Executed(OK)
  {
    assert (steps + [DoRelease(m)])[..|steps|] == steps;
    LockRunsKeepInv(nonce, steps);
    LockRunsKeepInv(nonce, steps + [DoRelease(m)]);
    ReleaseSucceeds(Exec(nonce, steps).sys, m);
  }
}
