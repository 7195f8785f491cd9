/** The RPC protocol between clients and a server that may restart.

    Every critical section is one step.  The network keeps every message ever
    sent and may deliver any of them any number of times, or never: that covers
    loss, duplication, reordering, retransmission and the deliberate resending of
    old requests.  The fields `from`, `log` and `outputs` only observe. */
module AtMostOnce {
  import opened Messages
  import opened XidWindow
  import opened ReplyTable

  datatype Request = Request(clt: nat, xid: nat, proc: nat, args: seq<int>, srv: nat, xidRep: nat)

  /** `from` is the instance that sent the reply; clients cannot see it. */
  datatype ReplyMsg = ReplyMsg(clt: nat, xid: nat, reply: Reply, from: nat)

  datatype Call = Waiting | Finished(reply: Reply, from: nat)

  /** `sent` holds the request made for each xid, `ended` what each call returned. */
  datatype Client = Client(
    nextXid: nat, srvNonce: nat, bindDone: bool, destroyWait: bool,
    calls: map<nat, Call>, window: seq<nat>,
    sent: map<nat, Request>, ended: map<nat, Call>)

  const NEW_CLIENT := Client(1, 0, false, false, map[], [0], map[], map[])

  datatype Run = Run(srv: nat, clt: nat, xid: nat)

  datatype State = State(
    clients: map<nat, Client>,
    requests: set<Request>, replies: set<ReplyMsg>,
    nonce: nat, nonces: set<nat>, server: Instance,
    log: seq<Run>, outputs: map<Run, Reply>)

  datatype Step =
    | Join(clt: nat)
    | Begin(clt: nat, proc: nat, args: seq<int>)
    | GotReply(msg: ReplyMsg)
    | Return(clt: nat, xid: nat)
    | Cancel(clt: nat)
    | BindReturned(clt: nat, xid: nat)
    | Restart(newNonce: nat)
    | RejectOld(req: Request)
    | AdmitClient(req: Request)
    | Classify(req: Request)
    | HandlerDone(clt: nat, xid: nat, reply: Reply)

  function InitState(nonce: nat): State {
    State(map[], {}, {}, nonce, {nonce}, FRESH, [], map[])
  }

  predicate ForThisInstance(s: State, m: Request) { m.srv == 0 || m.srv == s.nonce }

  /** What the handler of call (c, x) may hand back. */
  predicate Returnable(s: State, c: nat, x: nat, r: Reply) {
    c in s.clients && x in s.clients[c].sent
    && if s.clients[c].sent[x].proc == BIND then r == Reply(0, [s.nonce]) else r.ret >= 0
  }

  predicate Enabled(s: State, step: Step) {
    match step
    case Join(c) => c != 0 && c !in s.clients
    case Begin(c, proc, args) =>
      c in s.clients && (proc == BIND <==> !s.clients[c].bindDone) && !s.clients[c].destroyWait
    case GotReply(m) => m in s.replies && m.clt in s.clients
    case Return(c, x) => c in s.clients && x in s.clients[c].calls
    case Cancel(c) => c in s.clients
    case BindReturned(c, x) =>
      && c in s.clients && x in s.clients[c].ended && x in s.clients[c].sent
      && s.clients[c].sent[x].proc == BIND
      && var out := s.clients[c].ended[x];
         out.Finished? && out.reply.ret == 0 && |out.reply.body| == 1 && out.reply.body[0] >= 0
    case Restart(n) => n != 0 && n !in s.nonces
    case RejectOld(m) => m in s.requests && !ForThisInstance(s, m)
    case AdmitClient(m) => m in s.requests && ForThisInstance(s, m)
    case Classify(m) => m in s.requests && ForThisInstance(s, m) && Allowed(s.server, Ask(m.clt, m.xid, m.xidRep))
    case HandlerDone(c, x, r) =>
      Allowed(s.server, Answer(c, x, r)) && Returnable(s, c, x, r)
  }

  // -------------------------------------------------------------- client steps

  /** call1: take an xid, register the call and build the header. */
  function BeginCall(c: nat, cl: Client, proc: nat, args: seq<int>): Client
    requires cl.window != []
  {
    cl.(nextXid := cl.nextXid + 1,
        calls := cl.calls[cl.nextXid := Waiting],
        sent := cl.sent[cl.nextXid := Request(c, cl.nextXid, proc, args, cl.srvNonce, cl.window[0])])
  }

  /** got_pdu: acknowledge the xid; the first reply completes a pending call. */
  function TakeReply(cl: Client, m: ReplyMsg): Client
    requires cl.window != []
  {
    cl.(window := Report(cl.window, m.xid),
        calls := if m.xid in cl.calls && cl.calls[m.xid].Waiting?
                 then cl.calls[m.xid := Finished(m.reply, m.from)] else cl.calls)
  }

  /** The end of call1, after a reply, a cancel or a timeout. */
  function EndCall(cl: Client, x: nat): Client
    requires x in cl.calls && cl.window != []
  {
    cl.(window := Report(cl.window, x), calls := cl.calls - {x}, ended := cl.ended[x := Settled(cl.calls[x])])
  }

  function Settled(call: Call): Call {
    if call.Finished? then call else Finished(Reply(TIMEOUT_FAILURE, []), 0)
  }

  /** cancel overwrites even a reply that has already arrived. */
  function CancelCalls(cl: Client): Client {
    cl.(calls := map x | x in cl.calls :: Finished(Reply(CANCEL_FAILURE, []), 0),
        destroyWait := cl.destroyWait || |cl.calls| > 0)
  }

  function Binding(cl: Client, x: nat): Client
    requires x in cl.ended && cl.ended[x].Finished? && |cl.ended[x].reply.body| == 1 && cl.ended[x].reply.body[0] >= 0
  {
    cl.(bindDone := true, srvNonce := cl.ended[x].reply.body[0])
  }

  // --------------------------------------------------------------- whole steps

  /** A step happens when it is enabled and no VERIFY stops it. */
  predicate CanTake(s: State, step: Step) {
    && Enabled(s, step)
    && (forall c :: c in s.clients ==> s.clients[c].window != [])
    && (step.Classify? ==> Verified(s.server, Ask(step.req.clt, step.req.xid, step.req.xidRep)))
    && (step.HandlerDone? ==> Verified(s.server, Answer(step.clt, step.xid, step.reply)))
  }

  function Next(s: State, step: Step): State
    requires CanTake(s, step)
  {
    match step
    case Join(c) => s.(clients := s.clients[c := NEW_CLIENT])
    case Begin(c, proc, args) =>
      var cl := BeginCall(c, s.clients[c], proc, args);
      s.(clients := s.clients[c := cl], requests := s.requests + {cl.sent[s.clients[c].nextXid]})
    case GotReply(m) => s.(clients := s.clients[m.clt := TakeReply(s.clients[m.clt], m)])
    case Return(c, x) => s.(clients := s.clients[c := EndCall(s.clients[c], x)])
    case Cancel(c) => s.(clients := s.clients[c := CancelCalls(s.clients[c])])
    case BindReturned(c, x) => s.(clients := s.clients[c := Binding(s.clients[c], x)])
    case Restart(n) => s.(nonce := n, nonces := s.nonces + {n}, server := FRESH)
    case RejectOld(m) => s.(replies := s.replies + {ReplyMsg(m.clt, m.xid, Reply(OLDSRV_FAILURE, []), s.nonce)})
    case AdmitClient(m) => s.(server := React(s.server, Arrive(m.clt)))
    case Classify(m) => Dispatched(s, m)
    case HandlerDone(c, x, r) =>
      s.(server := React(s.server, Answer(c, x, r)),
         outputs := s.outputs[Run(s.nonce, c, x) := r],
         replies := s.replies + {ReplyMsg(c, x, r, s.nonce)})
  }

  function VerdictOn(s: State, m: Request): Verdict
    requires Verified(s.server, Ask(m.clt, m.xid, m.xidRep))
  {
    Check(s.server.tables, m.clt, m.xid, m.xidRep).1
  }

  /** The state after the table part of a dispatch, before any reply is sent. */
  function Logged(s: State, server: Instance, m: Request, v: Verdict): State {
    s.(server := server, log := if v.New? then s.log + [Run(s.nonce, m.clt, m.xid)] else s.log)
  }

  /** The reply dispatch sends for a request it does not run, if any. */
  function Answered(s: State, m: Request, v: Verdict): State {
    match v
    case New => s
    case InProgress => s
    case Done(r) => s.(replies := s.replies + {ReplyMsg(m.clt, m.xid, r, s.nonce)})
    case Forgotten => s.(replies := s.replies + {ReplyMsg(m.clt, m.xid, Reply(ATMOSTONCE_FAILURE, []), s.nonce)})
  }

  function Dispatched(s: State, m: Request): State
    requires Verified(s.server, Ask(m.clt, m.xid, m.xidRep))
  {
    var v := VerdictOn(s, m);
    Answered(Logged(s, React(s.server, Ask(m.clt, m.xid, m.xidRep)), m, v), m, v)
  }

  lemma AnsweredEffect(s: State, m: Request, v: Verdict)
    ensures var t := Answered(s, m, v);
            && t.requests == s.requests && t.clients == s.clients && t.nonce == s.nonce
            && t.outputs == s.outputs && t.log == s.log && t.server == s.server && s.replies <= t.replies
  {
  }

  /** A dispatched request touches the tables, the log and the replies only, and is
      logged exactly if it is new. */
  lemma ClassifyEffect(s: State, m: Request)
    requires CanTake(s, Classify(m))
    ensures var t := Next(s, Classify(m));
            && t.requests == s.requests && t.clients == s.clients
            && t.nonce == s.nonce && t.outputs == s.outputs && s.replies <= t.replies
            && t.server == React(s.server, Ask(m.clt, m.xid, m.xidRep))
            && t.log == (if VerdictOn(s, m).New? then s.log + [Run(s.nonce, m.clt, m.xid)] else s.log)
  {
    var v := VerdictOn(s, m);
    AnsweredEffect(Logged(s, React(s.server, Ask(m.clt, m.xid, m.xidRep)), m, v), m, v);
  }

  // ----------------------------------------------------------------- invariant

  ghost predicate Produced(outputs: map<Run, Reply>, c: nat, x: nat, call: Call) {
    call.Finished? && call.reply.ret >= 0 ==>
      Run(call.from, c, x) in outputs && outputs[Run(call.from, c, x)] == call.reply
  }

  ghost predicate Numbered(cl: Client) {
    && cl.nextXid >= 1 && WellFormed(cl.window)
    && (forall x :: x in cl.sent <==> 1 <= x < cl.nextXid)
    && (forall k: nat :: Acked(cl.window, k) ==> k < cl.nextXid)
    && (forall x :: x in cl.calls ==> x in cl.sent)
    && (forall x :: x in cl.calls && cl.calls[x].Waiting? ==> !Acked(cl.window, x))
    && (forall x :: x in cl.ended ==> x in cl.sent && x !in cl.calls && cl.ended[x].Finished?)
  }

  ghost predicate Headers(c: nat, cl: Client, nonces: set<nat>) {
    && cl.window != []
    && (cl.bindDone <==> cl.srvNonce != 0)
    && (cl.srvNonce != 0 ==> cl.srvNonce in nonces)
    && (forall x :: x in cl.sent ==> HeaderOk(c, x, cl.sent[x], cl.window[0], nonces))
  }

  ghost predicate HeaderOk(c: nat, x: nat, m: Request, front: nat, nonces: set<nat>) {
    && m.clt == c && m.xid == x && m.xidRep <= front
    && (m.proc == BIND <==> m.srv == 0)
    && (m.srv != 0 ==> m.srv in nonces)
  }

  ghost predicate Results(c: nat, cl: Client, outputs: map<Run, Reply>) {
    && (forall x :: x in cl.calls ==> Produced(outputs, c, x, cl.calls[x]))
    && (forall x :: x in cl.ended ==> Produced(outputs, c, x, cl.ended[x]))
  }

  ghost predicate ClientsInv(clients: map<nat, Client>, nonces: set<nat>, outputs: map<Run, Reply>) {
    forall c :: c in clients ==>
      Numbered(clients[c]) && Headers(c, clients[c], nonces) && Results(c, clients[c], outputs)
  }

  ghost predicate WasSent(clients: map<nat, Client>, c: nat, x: nat) {
    c in clients && x in clients[c].sent
  }

  ghost predicate RequestsInv(clients: map<nat, Client>, requests: set<Request>) {
    forall m :: m in requests ==> WasSent(clients, m.clt, m.xid) && clients[m.clt].sent[m.xid] == m
  }

  ghost predicate RepliesInv(clients: map<nat, Client>, replies: set<ReplyMsg>, outputs: map<Run, Reply>) {
    forall m :: m in replies ==>
      WasSent(clients, m.clt, m.xid) && Produced(outputs, m.clt, m.xid, Finished(m.reply, m.from))
  }

  /** A request reaches instance `n` only if it is a bind or names `n`. */
  ghost predicate Addressed(clients: map<nat, Client>, c: nat, x: nat, n: nat) {
    WasSent(clients, c, x) && (clients[c].sent[x].srv == 0 || clients[c].sent[x].srv == n)
  }

  ghost predicate BoundInv(clients: map<nat, Client>, bound: map<nat, nat>) {
    forall c :: c in bound ==> c in clients && clients[c].window != [] && bound[c] <= clients[c].window[0]
  }

  ghost predicate AskedInv(clients: map<nat, Client>, nonce: nat, hist: map<nat, History>) {
    forall c, x: nat :: x in Of(hist, c).asked ==> Addressed(clients, c, x, nonce)
  }

  ghost predicate LogInv(clients: map<nat, Client>, nonces: set<nat>, log: seq<Run>) {
    && Distinct(log)
    && (forall r :: r in log ==> r.srv in nonces && Addressed(clients, r.clt, r.xid, r.srv))
  }

  ghost predicate LiveInv(nonce: nat, hist: map<nat, History>, log: seq<Run>, outputs: map<Run, Reply>) {
    && (forall c: nat, x: nat :: Run(nonce, c, x) in log <==> x in Of(hist, c).issued)
    && (forall c: nat, x: nat :: Run(nonce, c, x) in outputs <==> x in Of(hist, c).replied)
    && (forall c: nat, x: nat :: Run(nonce, c, x) in outputs ==>
          outputs[Run(nonce, c, x)] == Of(hist, c).replied[x])
  }

  ghost predicate OutputInv(clients: map<nat, Client>, log: seq<Run>, outputs: map<Run, Reply>) {
    && (forall r :: r in outputs ==> r in log)
    && (forall r :: r in outputs && WasSent(clients, r.clt, r.xid) && clients[r.clt].sent[r.xid].proc == BIND ==>
          outputs[r] == Reply(0, [r.srv]))
  }

  /** Everything but the inside of the tables. */
  ghost predicate Core(s: State) {
    && s.nonce in s.nonces && 0 !in s.nonces
    && ClientsInv(s.clients, s.nonces, s.outputs)
    && RequestsInv(s.clients, s.requests)
    && RepliesInv(s.clients, s.replies, s.outputs)
    && BoundInv(s.clients, s.server.tables.bound)
    && AskedInv(s.clients, s.nonce, s.server.hist)
    && LogInv(s.clients, s.nonces, s.log)
    && LiveInv(s.nonce, s.server.hist, s.log, s.outputs)
    && OutputInv(s.clients, s.log, s.outputs)
  }

  ghost predicate Inv(s: State) {
    Core(s) && InstanceInv(s.server)
  }

  // ------------------------------------------------------- client preservation

  lemma BeginKeepsClient(c: nat, cl: Client, proc: nat, args: seq<int>, s: State)
    requires Numbered(cl) && Headers(c, cl, s.nonces) && Results(c, cl, s.outputs)
    requires proc == BIND <==> !cl.bindDone
    ensures var d := BeginCall(c, cl, proc, args);
            Numbered(d) && Headers(c, d, s.nonces) && Results(c, d, s.outputs)
  {
  }

  lemma TakeReplyKeepsClient(c: nat, cl: Client, m: ReplyMsg, s: State)
    requires Numbered(cl) && Headers(c, cl, s.nonces) && Results(c, cl, s.outputs)
    requires m.xid in cl.sent && Produced(s.outputs, c, m.xid, Finished(m.reply, m.from))
    ensures var d := TakeReply(cl, m);
            Numbered(d) && Headers(c, d, s.nonces) && Results(c, d, s.outputs) && cl.window[0] <= d.window[0]
  {
    ReportSpec(cl.window, m.xid);
  }

  lemma EndKeepsClient(c: nat, cl: Client, x: nat, s: State)
    requires Numbered(cl) && Headers(c, cl, s.nonces) && Results(c, cl, s.outputs) && x in cl.calls
    ensures var d := EndCall(cl, x);
            Numbered(d) && Headers(c, d, s.nonces) && Results(c, d, s.outputs) && cl.window[0] <= d.window[0]
  {
    ReportSpec(cl.window, x);
  }

  lemma CancelKeepsClient(c: nat, cl: Client, s: State)
    requires Numbered(cl) && Headers(c, cl, s.nonces) && Results(c, cl, s.outputs)
    ensures var d := CancelCalls(cl);
            Numbered(d) && Headers(c, d, s.nonces) && Results(c, d, s.outputs) && ClientGrows(cl, d)
  {
  }

  /** One client changes, nothing else: what the other parts need of it. */
  ghost predicate ClientGrows(cl: Client, d: Client) {
    && cl.window != [] && d.window != [] && cl.window[0] <= d.window[0]
    && (forall x :: x in cl.sent ==> x in d.sent && d.sent[x] == cl.sent[x])
  }

  ghost predicate Grows(a: map<nat, Client>, b: map<nat, Client>) {
    forall c :: c in a ==> c in b && ClientGrows(a[c], b[c])
  }

  lemma GrowsOne(s: State, c: nat, d: Client)
    requires ClientsInv(s.clients, s.nonces, s.outputs) && (c in s.clients ==> ClientGrows(s.clients[c], d))
    requires Numbered(d) && Headers(c, d, s.nonces) && Results(c, d, s.outputs)
    ensures Grows(s.clients, s.clients[c := d]) && ClientsInv(s.clients[c := d], s.nonces, s.outputs)
  {
  }

  lemma NetFrame(a: map<nat, Client>, b: map<nat, Client>,
                 requests: set<Request>, replies: set<ReplyMsg>, outputs: map<Run, Reply>)
    requires Grows(a, b) && RequestsInv(a, requests) && RepliesInv(a, replies, outputs)
    ensures RequestsInv(b, requests) && RepliesInv(b, replies, outputs)
  {
  }

  lemma BoundFrame(a: map<nat, Client>, b: map<nat, Client>, bound: map<nat, nat>)
    requires Grows(a, b) && BoundInv(a, bound)
    ensures BoundInv(b, bound)
  {
  }

  lemma AskedFrame(a: map<nat, Client>, b: map<nat, Client>, nonce: nat, hist: map<nat, History>)
    requires Grows(a, b) && AskedInv(a, nonce, hist)
    ensures AskedInv(b, nonce, hist)
  {
  }

  lemma LogFrame(a: map<nat, Client>, b: map<nat, Client>, nonces: set<nat>, log: seq<Run>)
    requires Grows(a, b) && LogInv(a, nonces, log)
    ensures LogInv(b, nonces, log)
  {
  }

  lemma OutputFrame(a: map<nat, Client>, b: map<nat, Client>, nonces: set<nat>, log: seq<Run>, outputs: map<Run, Reply>)
    requires Grows(a, b) && LogInv(a, nonces, log) && OutputInv(a, log, outputs)
    ensures OutputInv(b, log, outputs)
  {
  }

  /** A step of one client, given that the client itself stays in order. */
  lemma ClientStepKeeps(s: State, c: nat, d: Client)
    requires Core(s) && (c in s.clients ==> ClientGrows(s.clients[c], d))
    requires Numbered(d) && Headers(c, d, s.nonces) && Results(c, d, s.outputs)
    ensures Core(s.(clients := s.clients[c := d]))
  {
    var a, b := s.clients, s.clients[c := d];
    GrowsOne(s, c, d);
    NetFrame(a, b, s.requests, s.replies, s.outputs);
    BoundFrame(a, b, s.server.tables.bound);
    AskedFrame(a, b, s.nonce, s.server.hist);
    LogFrame(a, b, s.nonces, s.log);
    OutputFrame(a, b, s.nonces, s.log, s.outputs);
  }

  lemma JoinKeeps(s: State, c: nat)
    requires Core(s) && Enabled(s, Join(c)) && CanTake(s, Join(c))
    ensures Core(Next(s, Join(c)))
  {
    ClientStepKeeps(s, c, NEW_CLIENT);
  }

  lemma BeginKeeps(s: State, c: nat, proc: nat, args: seq<int>)
    requires Core(s) && CanTake(s, Begin(c, proc, args))
    ensures Core(Next(s, Begin(c, proc, args)))
  {
    var d := BeginCall(c, s.clients[c], proc, args);
    BeginKeepsClient(c, s.clients[c], proc, args, s);
    ClientStepKeeps(s, c, d);
    SendRequestKeeps(s.(clients := s.clients[c := d]), d.sent[s.clients[c].nextXid]);
  }

  lemma SendRequestKeeps(s: State, m: Request)
    requires Core(s) && WasSent(s.clients, m.clt, m.xid) && s.clients[m.clt].sent[m.xid] == m
    ensures Core(s.(requests := s.requests + {m}))
  {
  }

  lemma GotReplyKeeps(s: State, m: ReplyMsg)
    requires Core(s) && CanTake(s, GotReply(m))
    ensures Core(Next(s, GotReply(m)))
  {
    TakeReplyKeepsClient(m.clt, s.clients[m.clt], m, s);
    ClientStepKeeps(s, m.clt, TakeReply(s.clients[m.clt], m));
  }

  lemma ReturnKeeps(s: State, c: nat, x: nat)
    requires Core(s) && CanTake(s, Return(c, x))
    ensures Core(Next(s, Return(c, x)))
  {
    EndKeepsClient(c, s.clients[c], x, s);
    ClientStepKeeps(s, c, EndCall(s.clients[c], x));
  }

  lemma CancelKeeps(s: State, c: nat)
    requires Core(s) && CanTake(s, Cancel(c))
    ensures Core(Next(s, Cancel(c)))
  {
    var d := CancelCalls(s.clients[c]);
    CancelKeepsClient(c, s.clients[c], s);
    ClientStepKeeps(s, c, d);
    assert Next(s, Cancel(c)) == s.(clients := s.clients[c := d]);
  }

  /** A bind that returned 0 carries the nonce of the instance that answered. */
  lemma BindNamesInstance(s: State, c: nat, x: nat)
    requires Core(s) && Enabled(s, BindReturned(c, x))
    ensures s.clients[c].ended[x].reply.body[0] in s.nonces
  {
    var out := s.clients[c].ended[x];
    assert Produced(s.outputs, c, x, out);
    assert Run(out.from, c, x) in s.log;
  }

  lemma BindReturnedKeeps(s: State, c: nat, x: nat)
    requires Core(s) && CanTake(s, BindReturned(c, x))
    ensures Core(Next(s, BindReturned(c, x)))
  {
    BindNamesInstance(s, c, x);
    ClientStepKeeps(s, c, Binding(s.clients[c], x));
  }

  lemma RestartKeeps(s: State, n: nat)
    requires Core(s) && CanTake(s, Restart(n))
    ensures Core(Next(s, Restart(n)))
  {
    assert ClientsInv(s.clients, s.nonces + {n}, s.outputs);
    assert LogInv(s.clients, s.nonces + {n}, s.log);
  }

  lemma SendReplyKeeps(s: State, m: ReplyMsg)
    requires Core(s) && WasSent(s.clients, m.clt, m.xid)
    requires Produced(s.outputs, m.clt, m.xid, Finished(m.reply, m.from))
    ensures Core(s.(replies := s.replies + {m}))
  {
  }

  lemma SameHistoryKeeps(s: State, server: Instance)
    requires Core(s) && server.hist == s.server.hist && server.tables.bound == s.server.tables.bound
    ensures Core(s.(server := server))
  {
  }

  lemma AdmitKeeps(s: State, m: Request)
    requires Core(s) && CanTake(s, AdmitClient(m))
    ensures Core(Next(s, AdmitClient(m)))
  {
    SameHistoryKeeps(s, React(s.server, Arrive(m.clt)));
  }

  lemma LoggedAsked(s: State, server: Instance, m: Request, v: Verdict)
    requires AskedInv(s.clients, s.nonce, s.server.hist) && Addressed(s.clients, m.clt, m.xid, s.nonce)
    requires AskEffect(s.server, server, m.clt, m.xid, m.xidRep, v)
    ensures AskedInv(s.clients, s.nonce, server.hist)
  {
  }

  lemma LoggedLive(s: State, server: Instance, m: Request, v: Verdict)
    requires LiveInv(s.nonce, s.server.hist, s.log, s.outputs)
    requires AskEffect(s.server, server, m.clt, m.xid, m.xidRep, v)
    ensures LiveInv(s.nonce, server.hist, Logged(s, server, m, v).log, s.outputs)
  {
  }

  lemma LoggedLog(s: State, server: Instance, m: Request, v: Verdict)
    requires LogInv(s.clients, s.nonces, s.log) && s.nonce in s.nonces && Addressed(s.clients, m.clt, m.xid, s.nonce)
    requires v.New? ==> Run(s.nonce, m.clt, m.xid) !in s.log
    ensures LogInv(s.clients, s.nonces, Logged(s, server, m, v).log)
  {
  }

  lemma RequestInOrder(s: State, m: Request)
    requires ClientsInv(s.clients, s.nonces, s.outputs) && RequestsInv(s.clients, s.requests) && m in s.requests
    ensures WasSent(s.clients, m.clt, m.xid) && s.clients[m.clt].sent[m.xid] == m && s.clients[m.clt].window != []
    ensures HeaderOk(m.clt, m.xid, m, s.clients[m.clt].window[0], s.nonces)
  {
  }

  lemma LoggedOutputs(s: State, server: Instance, m: Request, v: Verdict)
    requires OutputInv(s.clients, s.log, s.outputs)
    ensures OutputInv(s.clients, Logged(s, server, m, v).log, s.outputs)
  {
  }

  lemma LoggedBound(s: State, server: Instance, m: Request, v: Verdict)
    requires BoundInv(s.clients, s.server.tables.bound) && AskEffect(s.server, server, m.clt, m.xid, m.xidRep, v)
    requires m.clt in s.clients && s.clients[m.clt].window != [] && m.xidRep <= s.clients[m.clt].window[0]
    ensures BoundInv(s.clients, server.tables.bound)
  {
  }

  lemma NewNotLogged(s: State, server: Instance, m: Request, v: Verdict)
    requires LiveInv(s.nonce, s.server.hist, s.log, s.outputs)
    requires AskEffect(s.server, server, m.clt, m.xid, m.xidRep, v) && v.New?
    ensures Run(s.nonce, m.clt, m.xid) !in s.log
  {
  }

  lemma LoggedKeeps(s: State, server: Instance, m: Request, v: Verdict)
    requires Core(s) && m in s.requests && ForThisInstance(s, m)
    requires AskEffect(s.server, server, m.clt, m.xid, m.xidRep, v)
    ensures Core(Logged(s, server, m, v))
  {
    RequestInOrder(s, m);
    LoggedAsked(s, server, m, v);
    LoggedLive(s, server, m, v);
    if v.New? {
      NewNotLogged(s, server, m, v);
    }
    LoggedLog(s, server, m, v);
    LoggedOutputs(s, server, m, v);
    LoggedBound(s, server, m, v);
  }

  lemma AnsweredKeeps(s: State, m: Request, v: Verdict)
    requires Core(s) && WasSent(s.clients, m.clt, m.xid)
    requires v.Done? ==> Produced(s.outputs, m.clt, m.xid, Finished(v.reply, s.nonce))
    ensures Core(Answered(s, m, v))
  {
    match v
    case New =>
    case InProgress =>
    case Done(r) => SendReplyKeeps(s, ReplyMsg(m.clt, m.xid, r, s.nonce));
    case Forgotten => SendReplyKeeps(s, ReplyMsg(m.clt, m.xid, Reply(ATMOSTONCE_FAILURE, []), s.nonce));
  }

  lemma DispatchedKeeps(s: State, server: Instance, m: Request, v: Verdict)
    requires Core(s) && m in s.requests && ForThisInstance(s, m)
    requires AskEffect(s.server, server, m.clt, m.xid, m.xidRep, v)
    ensures Core(Answered(Logged(s, server, m, v), m, v))
  {
    LoggedKeeps(s, server, m, v);
    assert v.Done? ==> Run(s.nonce, m.clt, m.xid) in s.outputs;
    AnsweredKeeps(Logged(s, server, m, v), m, v);
  }

  /** The state after dispatch has checked request `m`. */
  lemma ClassifyIs(s: State, m: Request) returns (server: Instance, v: Verdict)
    requires InstanceInv(s.server) && CanTake(s, Classify(m))
    ensures AskEffect(s.server, server, m.clt, m.xid, m.xidRep, v)
    ensures Next(s, Classify(m)) == Answered(Logged(s, server, m, v), m, v)
  {
    server, v := React(s.server, Ask(m.clt, m.xid, m.xidRep)), VerdictOn(s, m);
    AskHasEffect(s.server, m.clt, m.xid, m.xidRep);
  }

  lemma ClassifyKeeps(s: State, m: Request)
    requires Inv(s) && CanTake(s, Classify(m))
    ensures Core(Next(s, Classify(m)))
  {
    var server, v := ClassifyIs(s, m);
    DispatchedKeeps(s, server, m, v);
  }

  /** The state after add_reply, before the reply is sent. */
  function Saved(s: State, server: Instance, c: nat, x: nat, r: Reply): State {
    s.(server := server, outputs := s.outputs[Run(s.nonce, c, x) := r])
  }

  lemma SavedResults(s: State, run: Run, r: Reply)
    requires ClientsInv(s.clients, s.nonces, s.outputs) && RepliesInv(s.clients, s.replies, s.outputs)
    requires run !in s.outputs
    ensures ClientsInv(s.clients, s.nonces, s.outputs[run := r])
    ensures RepliesInv(s.clients, s.replies, s.outputs[run := r])
  {
    var outputs := s.outputs[run := r];
    assert forall c, x, call :: Produced(s.outputs, c, x, call) ==> Produced(outputs, c, x, call);
    forall c | c in s.clients ensures Results(c, s.clients[c], outputs) {
      assert Results(c, s.clients[c], s.outputs);
    }
  }

  lemma SavedAsked(s: State, server: Instance, c: nat, x: nat, r: Reply)
    requires AskedInv(s.clients, s.nonce, s.server.hist) && AnswerEffect(s.server, server, c, x, r)
    ensures AskedInv(s.clients, s.nonce, server.hist)
  {
  }

  lemma SavedLive(s: State, server: Instance, c: nat, x: nat, r: Reply)
    requires LiveInv(s.nonce, s.server.hist, s.log, s.outputs) && AnswerEffect(s.server, server, c, x, r)
    ensures LiveInv(s.nonce, server.hist, s.log, s.outputs[Run(s.nonce, c, x) := r])
  {
  }

  lemma SavedKeeps(s: State, server: Instance, c: nat, x: nat, r: Reply)
    requires Core(s) && AnswerEffect(s.server, server, c, x, r) && Returnable(s, c, x, r)
    requires Run(s.nonce, c, x) in s.log && Run(s.nonce, c, x) !in s.outputs
    ensures Core(Saved(s, server, c, x, r))
  {
    SavedResults(s, Run(s.nonce, c, x), r);
    SavedAsked(s, server, c, x, r);
    SavedLive(s, server, c, x, r);
    assert OutputInv(s.clients, s.log, s.outputs[Run(s.nonce, c, x) := r]);
  }

  lemma HandlerDoneKeeps(s: State, c: nat, x: nat, r: Reply)
    requires Core(s) && CanTake(s, HandlerDone(c, x, r))
    ensures Core(Next(s, HandlerDone(c, x, r)))
  {
    AnswerHasEffect(s.server, c, x, r);
    var server := React(s.server, Answer(c, x, r));
    SavedKeeps(s, server, c, x, r);
    SendReplyKeeps(Saved(s, server, c, x, r), ReplyMsg(c, x, r, s.nonce));
  }

  /** No VERIFY of the window or the set stops an enabled step. */
  lemma EnabledCanTake(s: State, step: Step)
    requires Inv(s) && Enabled(s, step)
    ensures CanTake(s, step)
  {
    if step.Classify? {
      AllowedIsVerified(s.server, Ask(step.req.clt, step.req.xid, step.req.xidRep));
    } else if step.HandlerDone? {
      AllowedIsVerified(s.server, Answer(step.clt, step.xid, step.reply));
    }
  }

  predicate ClientSide(step: Step) {
    step.Join? || step.Begin? || step.GotReply? || step.Return? || step.Cancel? || step.BindReturned?
  }

  lemma ClientSideKeeps(s: State, step: Step)
    requires Core(s) && CanTake(s, step) && ClientSide(step)
    ensures Core(Next(s, step))
  {
    match step
    case Join(c) => JoinKeeps(s, c);
    case Begin(c, proc, args) => BeginKeeps(s, c, proc, args);
    case GotReply(m) => GotReplyKeeps(s, m);
    case Return(c, x) => ReturnKeeps(s, c, x);
    case Cancel(c) => CancelKeeps(s, c);
    case BindReturned(c, x) => BindReturnedKeeps(s, c, x);
  }

  lemma RejectKeeps(s: State, m: Request)
    requires Core(s) && CanTake(s, RejectOld(m))
    ensures Core(Next(s, RejectOld(m)))
  {
    SendReplyKeeps(s, ReplyMsg(m.clt, m.xid, Reply(OLDSRV_FAILURE, []), s.nonce));
  }

  lemma ServerSideKeeps(s: State, step: Step)
    requires Inv(s) && CanTake(s, step) && !ClientSide(step)
    ensures Core(Next(s, step))
  {
    match step
    case Restart(n) => RestartKeeps(s, n);
    case RejectOld(m) => RejectKeeps(s, m);
    case AdmitClient(m) => AdmitKeeps(s, m);
    case Classify(m) => ClassifyKeeps(s, m);
    case HandlerDone(c, x, r) => HandlerDoneKeeps(s, c, x, r);
  }

  lemma TablesKept(s: State, step: Step)
    requires InstanceInv(s.server) && CanTake(s, step)
    ensures InstanceInv(Next(s, step).server)
  {
    if step.Restart? {
      FreshInv();
    } else if step.AdmitClient? {
      ArriveKeeps(s.server, step.req.clt);
    } else if step.Classify? {
      AskKeeps(s.server, step.req.clt, step.req.xid, step.req.xidRep);
    } else if step.HandlerDone? {
      AnswerKeeps(s.server, step.clt, step.xid, step.reply);
    }
  }

  lemma StepKeeps(s: State, step: Step)
    requires Inv(s) && Enabled(s, step)
    ensures CanTake(s, step) && Inv(Next(s, step))
  {
    EnabledCanTake(s, step);
    TablesKept(s, step);
    if ClientSide(step) {
      ClientSideKeeps(s, step);
    } else {
      ServerSideKeeps(s, step);
    }
  }

  // ---------------------------------------------------------------------- runs

  /** What a sequence of steps leads to from a server's first start; a failed
      VERIFY anywhere along it aborts. */
  datatype Reached = At(state: State) | Crashed

  ghost function Exec(nonce: nat, steps: seq<Step>): Reached {
    if steps == [] then At(InitState(nonce))
    else
      match Exec(nonce, steps[..|steps| - 1])
      case Crashed => Crashed
      case At(s) => if CanTake(s, steps[|steps| - 1]) then At(Next(s, steps[|steps| - 1])) else Crashed
  }

  ghost predicate Possible(nonce: nat, steps: seq<Step>) {
    steps == [] ||
    var before := Exec(nonce, steps[..|steps| - 1]);
    Possible(nonce, steps[..|steps| - 1]) && (before.At? ==> Enabled(before.state, steps[|steps| - 1]))
  }

  /** No run fails a VERIFY, and every state of every run satisfies the invariant. */
  lemma {:induction false} RunsKeepInv(nonce: nat, steps: seq<Step>)
    requires nonce != 0 && Possible(nonce, steps)
    ensures Exec(nonce, steps).At? && Inv(Exec(nonce, steps).state)
  {
    if steps == [] {
      FreshInv();
    } else {
      RunsKeepInv(nonce, steps[..|steps| - 1]);
      StepKeeps(Exec(nonce, steps[..|steps| - 1]).state, steps[|steps| - 1]);
    }
  }

  /** How often the handler for call (c, x) was run, on all instances together. */
  function RunsOf(log: seq<Run>, c: nat, x: nat): nat {
    if log == [] then 0
    else RunsOf(log[..|log| - 1], c, x) +
         (if log[|log| - 1].clt == c && log[|log| - 1].xid == x then 1 else 0)
  }

  lemma {:induction false} RunsOfNone(log: seq<Run>, c: nat, x: nat)
    requires forall r :: r in log ==> !(r.clt == c && r.xid == x)
    ensures RunsOf(log, c, x) == 0
  {
    if log != [] {
      assert log[|log| - 1] in log;
      RunsOfNone(log[..|log| - 1], c, x);
    }
  }

  lemma {:induction false} RunsOfOne(log: seq<Run>, c: nat, x: nat, srv: nat)
    requires Distinct(log)
    requires forall r :: r in log && r.clt == c && r.xid == x ==> r.srv == srv
    ensures RunsOf(log, c, x) == if Run(srv, c, x) in log then 1 else 0
  {
    if log != [] {
      var init, last := log[..|log| - 1], log[|log| - 1];
      assert log == init + [last];
      if last.clt == c && last.xid == x {
        forall r | r in init ensures !(r.clt == c && r.xid == x) {
          assert r in log;
        }
        RunsOfNone(init, c, x);
      } else {
        RunsOfOne(init, c, x, srv);
      }
    }
  }

  /** A call other than bind runs at most once, whatever becomes of it and however
      often the server restarts; it runs on the instance its header names. */
  lemma AtMostOneRun(s: State, c: nat, x: nat)
    requires Inv(s) && WasSent(s.clients, c, x) && s.clients[c].sent[x].proc != BIND
    ensures RunsOf(s.log, c, x) == if Run(s.clients[c].sent[x].srv, c, x) in s.log then 1 else 0
  {
    forall r | r in s.log && r.clt == c && r.xid == x ensures r.srv == s.clients[c].sent[x].srv {
      assert Addressed(s.clients, r.clt, r.xid, r.srv);
      assert HeaderOk(c, x, s.clients[c].sent[x], s.clients[c].window[0], s.nonces);
    }
    RunsOfOne(s.log, c, x, s.clients[c].sent[x].srv);
  }

  /** In every run: a call other than bind runs at most once in all, and any call,
      bind included, at most once on each instance. */
  lemma NoCallRunsTwice(nonce: nat, steps: seq<Step>, c: nat, x: nat)
    requires nonce != 0 && Possible(nonce, steps)
    ensures Exec(nonce, steps).At?
    ensures var s := Exec(nonce, steps).state;
            && (forall srv :: multiset(s.log)[Run(srv, c, x)] <= 1)
            && (WasSent(s.clients, c, x) && s.clients[c].sent[x].proc != BIND ==> RunsOf(s.log, c, x) <= 1)
  {
    RunsKeepInv(nonce, steps);
    var s := Exec(nonce, steps).state;
    forall srv ensures multiset(s.log)[Run(srv, c, x)] <= 1 {
      if Run(srv, c, x) in s.log {
        DistinctCount(s.log, Run(srv, c, x));
      }
    }
    if WasSent(s.clients, c, x) && s.clients[c].sent[x].proc != BIND {
      AtMostOneRun(s, c, x);
    }
  }

  /** End to end: in every run, a call that returned a value >= 0 had its handler
      run exactly once, and returned exactly what that run produced. */
  lemma AnsweredCallsRanExactlyOnce(nonce: nat, steps: seq<Step>, c: nat, x: nat)
    requires nonce != 0 && Possible(nonce, steps)
    ensures Exec(nonce, steps).At?
    ensures var s := Exec(nonce, steps).state;
            c in s.clients && x in s.clients[c].ended && s.clients[c].ended[x].Finished?
            && s.clients[c].ended[x].reply.ret >= 0 ==>
              && x in s.clients[c].sent
              && var m, out := s.clients[c].sent[x], s.clients[c].ended[x];
                 && (m.proc != BIND ==> RunsOf(s.log, c, x) == 1 && out.from == m.srv)
                 && (m.proc == BIND ==> multiset(s.log)[Run(out.from, c, x)] == 1 && out.reply == Reply(0, [out.from]))
                 && Run(out.from, c, x) in s.outputs && s.outputs[Run(out.from, c, x)] == out.reply
  {
    RunsKeepInv(nonce, steps);
    var s := Exec(nonce, steps).state;
    if c in s.clients && x in s.clients[c].ended && s.clients[c].ended[x].Finished?
       && s.clients[c].ended[x].reply.ret >= 0 {
      var out := s.clients[c].ended[x];
      assert Produced(s.outputs, c, x, out);
      var r := Run(out.from, c, x);
      assert r in s.log && WasSent(s.clients, c, x);
      assert HeaderOk(c, x, s.clients[c].sent[x], s.clients[c].window[0], s.nonces);
      assert Addressed(s.clients, c, x, out.from);
      if s.clients[c].sent[x].proc != BIND {
        AtMostOneRun(s, c, x);
      } else {
        DistinctCount(s.log, r);
      }
    }
  }

  lemma {:induction false} DistinctCount(log: seq<Run>, r: Run)
    requires Distinct(log) && r in log
    ensures multiset(log)[r] == 1
  {
    var i :| 0 <= i < |log| && log[i] == r;
    assert log == log[..i] + [r] + log[i + 1..];
    assert r !in log[..i] && r !in log[i + 1..];
    assert multiset(log[..i])[r] == 0 && multiset(log[i + 1..])[r] == 0;
  }

  ghost predicate Pending(s: State, c: nat, x: nat) {
    c in s.clients && x in s.clients[c].calls && s.clients[c].calls[x].Waiting?
  }

  /** While a call is pending the live instance's bound is below its xid: no copy
      of its request is FORGOTTEN, and its reply, once saved, is in the window. */
  lemma PendingIsRemembered(s: State, c: nat, x: nat)
    requires Inv(s) && Pending(s, c, x)
    ensures Bound(s.server.tables, c) < x
    ensures x in Of(s.server.hist, c).replied ==>
              Entry(x, Of(s.server.hist, c).replied[x]) in Window(s.server.tables, c)
    ensures forall m :: m in s.requests && m.clt == c ==> m.xidRep < x
  {
    assert !Acked(s.clients[c].window, x);
    assert ClientOk(s.server.tables, s.server.hist, c);
    forall m | m in s.requests && m.clt == c ensures m.xidRep < x {
      assert WasSent(s.clients, m.clt, m.xid);
      assert HeaderOk(c, m.xid, m, s.clients[c].window[0], s.nonces);
    }
  }

  lemma PendingVerdict(s: State, m: Request)
    requires Inv(s) && Enabled(s, Classify(m)) && Pending(s, m.clt, m.xid)
    ensures CanTake(s, Classify(m))
    ensures VerdictOn(s, m) == SpecVerdict(Of(s.server.hist, m.clt), m.xid)
  {
    EnabledCanTake(s, Classify(m));
    PendingIsRemembered(s, m.clt, m.xid);
    assert m.xidRep < m.xid;
    VerdictAboveBound(s.server, m.clt, m.xid, m.xidRep);
  }

  lemma DoneIsSent(s: State, m: Request)
    requires CanTake(s, Classify(m)) && VerdictOn(s, m).Done?
    ensures ReplyMsg(m.clt, m.xid, VerdictOn(s, m).reply, s.nonce) in Next(s, Classify(m)).replies
  {
  }

  /** Every copy of a pending call's request is answered by the history alone, so
      it is never FORGOTTEN, and a retransmission after the handler finished
      brings back its very reply. */
  lemma RetransmissionAnswered(s: State, m: Request)
    requires Inv(s) && Enabled(s, Classify(m)) && Pending(s, m.clt, m.xid)
    ensures CanTake(s, Classify(m))
    ensures VerdictOn(s, m) == SpecVerdict(Of(s.server.hist, m.clt), m.xid)
    ensures Run(s.nonce, m.clt, m.xid) in s.outputs ==>
              ReplyMsg(m.clt, m.xid, s.outputs[Run(s.nonce, m.clt, m.xid)], s.nonce) in Next(s, Classify(m)).replies
  {
    PendingVerdict(s, m);
    if Run(s.nonce, m.clt, m.xid) in s.outputs {
      RepliedWasAsked(s.server, m.clt, m.xid);
      DoneIsSent(s, m);
    }
  }

  /** No step of a run discards the saved reply of a call that is still pending,
      except the loss of the whole instance. */
  lemma WantedReplySurvives(nonce: nat, steps: seq<Step>, step: Step, c: nat, x: nat)
    requires nonce != 0 && Possible(nonce, steps + [step]) && !step.Restart?
    ensures Exec(nonce, steps).At? && Exec(nonce, steps + [step]).At?
    ensures var s, t := Exec(nonce, steps).state, Exec(nonce, steps + [step]).state;
            Pending(t, c, x) && x in Of(s.server.hist, c).replied ==>
              Entry(x, Of(s.server.hist, c).replied[x]) in Window(t.server.tables, c)
  {
    assert (steps + [step])[..|steps|] == steps;
    RunsKeepInv(nonce, steps);
    RunsKeepInv(nonce, steps + [step]);
    var s, t := Exec(nonce, steps).state, Exec(nonce, steps + [step]).state;
    assert t == Next(s, step);
    if Pending(t, c, x) && x in Of(s.server.hist, c).replied {
      PendingIsRemembered(t, c, x);
      RepliedStays(s, step, c, x);
    }
  }

  lemma RepliedStays(s: State, step: Step, c: nat, x: nat)
    requires CanTake(s, step) && !step.Restart? && x in Of(s.server.hist, c).replied
    ensures x in Of(Next(s, step).server.hist, c).replied
    ensures Of(Next(s, step).server.hist, c).replied[x] == Of(s.server.hist, c).replied[x]
  {
    if step.Classify? {
      RepliedStaysInstance(s.server, Ask(step.req.clt, step.req.xid, step.req.xidRep), c, x);
    } else if step.HandlerDone? {
      RepliedStaysInstance(s.server, Answer(step.clt, step.xid, step.reply), c, x);
    }
  }

  lemma RepliedStaysInstance(i: Instance, e: Event, c: nat, x: nat)
    requires Verified(i, e) && Allowed(i, e) && x in Of(i.hist, c).replied
    ensures x in Of(React(i, e).hist, c).replied
    ensures Of(React(i, e).hist, c).replied[x] == Of(i.hist, c).replied[x]
  {
  }
}
