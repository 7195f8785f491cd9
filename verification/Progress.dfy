/** That calls get through: from every state a run can reach, the run can go on so that
    a call to the live instance returns what its handler produces. */
module Progress {
  import opened Messages
  import opened XidWindow
  import opened ReplyTable
  import opened AtMostOnce
  import opened Delivery

  ghost predicate Reaches(nonce: nat, steps: seq<Step>, s: State) {
    nonce != 0 && Possible(nonce, steps) && Exec(nonce, steps) == At(s)
  }

  lemma Go(nonce: nat, steps: seq<Step>, s: State, step: Step) returns (t: State)
    requires Reaches(nonce, steps, s) && Enabled(s, step)
    ensures CanTake(s, step) && t == Next(s, step) && Reaches(nonce, steps + [step], t)
    ensures Inv(s) && AllSent(s)
  {
    assert (steps + [step])[..|steps|] == steps;
    EverythingIsSent(nonce, steps);
    EverythingIsSent(nonce, steps + [step]);
    t := Next(s, step);
  }

  /** The call waits and names the live instance, or none. */
  ghost predicate Open(s: State, c: nat, x: nat) {
    Pending(s, c, x) && x in s.clients[c].sent && ForThisInstance(s, s.clients[c].sent[x])
  }

  predicate SameForClients(s: State, t: State) {
    t.clients == s.clients && t.nonce == s.nonce && t.outputs == s.outputs
  }

  lemma NewIsIssued(i: Instance, c: nat, x: nat, rep: nat)
    requires InstanceInv(i) && c in i.tables.window && Check(i.tables, c, x, rep).1.New?
    ensures x in Of(React(i, Ask(c, x, rep)).hist, c).issued
  {
    AskHasEffect(i, c, x, rep);
  }

  lemma AskedIsIssued(s: State, c: nat, x: nat)
    requires Inv(s) && Pending(s, c, x) && x in Of(s.server.hist, c).asked
    ensures x in Of(s.server.hist, c).issued
  {
    PendingIsRemembered(s, c, x);
    assert ClientOk(s.server.tables, s.server.hist, c);
  }

  lemma UnaskedIsNew(s: State, m: Request)
    requires Inv(s) && Enabled(s, Classify(m)) && Pending(s, m.clt, m.xid)
    requires m.xid !in Of(s.server.hist, m.clt).asked
    ensures CanTake(s, Classify(m)) && VerdictOn(s, m).New?
    ensures SameForClients(s, Next(s, Classify(m)))
    ensures m.xid in Of(Next(s, Classify(m)).server.hist, m.clt).issued
  {
    PendingVerdict(s, m);
    ClassifyEffect(s, m);
    NewIsIssued(s.server, m.clt, m.xid, m.xidRep);
  }

  /** The request arrives, unless it has already, and its handler starts. */
  lemma HandlerStarts(nonce: nat, steps: seq<Step>, s: State, c: nat, x: nat) returns (steps': seq<Step>, t: State)
    requires Reaches(nonce, steps, s) && Open(s, c, x)
    ensures Reaches(nonce, steps', t) && steps <= steps' && SameForClients(s, t)
    ensures x in Of(t.server.hist, c).issued
  {
    EverythingIsSent(nonce, steps);
    if x in Of(s.server.hist, c).asked {
      AskedIsIssued(s, c, x);
      steps', t := steps, s;
    } else {
      var m := s.clients[c].sent[x];
      RequestInOrder(s, m);
      assert m.clt == c && m.xid == x;
      var u := Go(nonce, steps, s, AdmitClient(m));
      AdmittedCanBeChecked(s, m);
      t := Go(nonce, steps + [AdmitClient(m)], u, Classify(m));
      UnaskedIsNew(u, m);
      steps' := steps + [AdmitClient(m)] + [Classify(m)];
    }
  }

  /** It ends with any result it may have. */
  lemma HandlerEnds(nonce: nat, steps: seq<Step>, s: State, c: nat, x: nat, r: Reply) returns (steps': seq<Step>, t: State)
    requires Reaches(nonce, steps, s) && x in Of(s.server.hist, c).issued
    requires Run(s.nonce, c, x) !in s.outputs && Returnable(s, c, x, r)
    ensures Reaches(nonce, steps', t) && steps <= steps' && t.clients == s.clients && t.nonce == s.nonce
    ensures ReplyMsg(c, x, r, s.nonce) in t.replies
  {
    EverythingIsSent(nonce, steps);
    assert x !in Of(s.server.hist, c).replied;
    t := Go(nonce, steps, s, HandlerDone(c, x, r));
    HandlerDoneExactly(s, c, x, r);
    steps' := steps + [HandlerDone(c, x, r)];
  }

  /** A reply on the network completes the call that waits for it. */
  lemma ReplyReturns(nonce: nat, steps: seq<Step>, s: State, m: ReplyMsg) returns (steps': seq<Step>, t: State)
    requires Reaches(nonce, steps, s) && Pending(s, m.clt, m.xid) && m in s.replies
    ensures Reaches(nonce, steps', t) && steps <= steps' && t.nonce == s.nonce
    ensures m.clt in t.clients && SameStanding(s.clients[m.clt], t.clients[m.clt])
    ensures m.xid in t.clients[m.clt].ended && t.clients[m.clt].ended[m.xid] == Finished(m.reply, m.from)
  {
    var u := Go(nonce, steps, s, GotReply(m));
    assert Numbered(s.clients[m.clt]);
    GotReplyExactly(s, m);
    t := Go(nonce, steps + [GotReply(m)], u, Return(m.clt, m.xid));
    assert Numbered(u.clients[m.clt]);
    ReturnExactly(u, m.clt, m.xid);
    steps' := steps + [GotReply(m)] + [Return(m.clt, m.xid)];
  }

  /** From every reachable state, a waiting call to the live instance whose handler has
      not finished there can return any result the handler may have. */
  lemma CallCanReturn(nonce: nat, steps: seq<Step>, s: State, c: nat, x: nat, r: Reply) returns (steps': seq<Step>, t: State)
    requires Reaches(nonce, steps, s) && Open(s, c, x)
    requires Run(s.nonce, c, x) !in s.outputs && Returnable(s, c, x, r)
    ensures Reaches(nonce, steps', t) && steps <= steps' && t.nonce == s.nonce
    ensures c in t.clients && SameStanding(s.clients[c], t.clients[c])
    ensures x in t.clients[c].ended && t.clients[c].ended[x] == Finished(r, s.nonce)
  {
    var a, u := HandlerStarts(nonce, steps, s, c, x);
    var b, v := HandlerEnds(nonce, a, u, c, x, r);
    steps', t := ReplyReturns(nonce, b, v, ReplyMsg(c, x, r, s.nonce));
  }

  /** And one whose handler has finished there, on any instance, can return its result. */
  lemma FinishedCallCanReturn(nonce: nat, steps: seq<Step>, s: State, c: nat, x: nat, srv: nat)
    returns (steps': seq<Step>, t: State)
    requires Reaches(nonce, steps, s) && Pending(s, c, x) && Run(srv, c, x) in s.outputs
    ensures Reaches(nonce, steps', t) && steps <= steps'
    ensures c in t.clients && x in t.clients[c].ended
    ensures t.clients[c].ended[x] == Finished(s.outputs[Run(srv, c, x)], srv)
  {
    EverythingIsSent(nonce, steps);
    steps', t := ReplyReturns(nonce, steps, s, ReplyMsg(c, x, s.outputs[Run(srv, c, x)], srv));
  }

  // ------------------------------------------------------------------- from scratch

  lemma NewCallNotRun(s: State, c: nat)
    requires Inv(s) && c in s.clients
    ensures Run(s.nonce, c, s.clients[c].nextXid) !in s.outputs
  {
    var x := s.clients[c].nextXid;
    assert Numbered(s.clients[c]) && !WasSent(s.clients, c, x);
    assert Run(s.nonce, c, x) in s.outputs ==> Addressed(s.clients, c, x, s.nonce);
  }

  /** A client that may begin a call to the live instance can have it answered. */
  lemma NewCallCanReturn(nonce: nat, steps: seq<Step>, s: State, c: nat, proc: nat, args: seq<int>, r: Reply)
    returns (steps': seq<Step>, t: State)
    requires Reaches(nonce, steps, s) && Enabled(s, Begin(c, proc, args))
    requires s.clients[c].srvNonce == 0 || s.clients[c].srvNonce == s.nonce
    requires if proc == BIND then r == Reply(0, [s.nonce]) else r.ret >= 0
    ensures Reaches(nonce, steps', t) && steps <= steps' && t.nonce == s.nonce
    ensures var x := s.clients[c].nextXid;
            && c in t.clients && x in t.clients[c].ended && t.clients[c].ended[x] == Finished(r, s.nonce)
            && x in t.clients[c].sent && t.clients[c].sent[x].proc == proc && t.clients[c].sent[x].args == args
            && t.clients[c].bindDone == s.clients[c].bindDone && t.clients[c].destroyWait == s.clients[c].destroyWait
  {
    var u := Go(nonce, steps, s, Begin(c, proc, args));
    BeginExactly(s, c, proc, args);
    NewCallNotRun(s, c);
    steps', t := CallCanReturn(nonce, steps + [Begin(c, proc, args)], u, c, s.clients[c].nextXid, r);
  }

  /** From every reachable state an unbound client can bind to the live instance. */
  lemma ClientCanBind(nonce: nat, steps: seq<Step>, s: State, c: nat) returns (steps': seq<Step>, t: State)
    requires Reaches(nonce, steps, s) && c in s.clients && !s.clients[c].bindDone && !s.clients[c].destroyWait
    ensures Reaches(nonce, steps', t) && steps <= steps' && t.nonce == s.nonce && c in t.clients
    ensures t.clients[c].bindDone && t.clients[c].srvNonce == t.nonce && !t.clients[c].destroyWait
  {
    EverythingIsSent(nonce, steps);
    assert Headers(c, s.clients[c], s.nonces);
    var x := s.clients[c].nextXid;
    var a, u := NewCallCanReturn(nonce, steps, s, c, BIND, [], Reply(0, [s.nonce]));
    t := Go(nonce, a, u, BindReturned(c, x));
    BindExactly(u, c, x);
    steps' := a + [BindReturned(c, x)];
  }

  /** From every reachable state a new client can join, bind to the live instance and
      have any call answered with any result. */
  lemma NewClientIsServed(nonce: nat, steps: seq<Step>, s: State, c: nat, proc: nat, args: seq<int>, r: Reply)
    returns (steps': seq<Step>, t: State, x: nat)
    requires Reaches(nonce, steps, s) && c != 0 && c !in s.clients && proc != BIND && r.ret >= 0
    ensures Reaches(nonce, steps', t) && steps <= steps' && c in t.clients
    ensures x in t.clients[c].sent && t.clients[c].sent[x].proc == proc && t.clients[c].sent[x].args == args
    ensures x in t.clients[c].ended && t.clients[c].ended[x] == Finished(r, s.nonce)
  {
    var u := Go(nonce, steps, s, Join(c));
    var a, v := ClientCanBind(nonce, steps + [Join(c)], u, c);
    x := v.clients[c].nextXid;
    steps', t := NewCallCanReturn(nonce, a, v, c, proc, args, r);
  }
}
