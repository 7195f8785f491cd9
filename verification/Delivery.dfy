/** That the RPC protocol does its work: what each step delivers, that what is sent
    stays sent, that the first reply to arrive is what a call returns, and that every
    call to the live instance can be answered. */
module Delivery {
  import opened Messages
  import opened XidWindow
  import opened ReplyTable
  import opened AtMostOnce

  const CANCELLED := Finished(Reply(CANCEL_FAILURE, []), 0)
  const TIMED_OUT := Finished(Reply(TIMEOUT_FAILURE, []), 0)

  // --------------------------------------------------------------- what steps do

  /** Nothing but client `c` changed. */
  ghost predicate OnlyClient(s: State, t: State, c: nat) {
    && t.clients.Keys == s.clients.Keys && (forall d :: d in s.clients && d != c ==> t.clients[d] == s.clients[d])
    && t.requests == s.requests && OnlyClients(s, t)
  }

  predicate OnlyClients(s: State, t: State) {
    && t.replies == s.replies && t.nonce == s.nonce && t.nonces == s.nonces && t.server == s.server
    && t.log == s.log && t.outputs == s.outputs
  }

  ghost predicate OnlyCall(a: map<nat, Call>, b: map<nat, Call>, x: nat) {
    forall y :: y != x ==> (y in b <==> y in a) && (y in a ==> b[y] == a[y])
  }

  /** Neither binding, nor numbering, nor what was asked changed. */
  predicate SameStanding(a: Client, b: Client) {
    && a.bindDone == b.bindDone && a.srvNonce == b.srvNonce && a.destroyWait == b.destroyWait
    && a.nextXid == b.nextXid && a.sent == b.sent
  }

  /** A call takes the next xid, waits, and its request with the client's own header
      is on the network. */
  lemma BeginExactly(s: State, c: nat, proc: nat, args: seq<int>)
    requires CanTake(s, Begin(c, proc, args))
    ensures var t, cl := Next(s, Begin(c, proc, args)), s.clients[c];
            var m := Request(c, cl.nextXid, proc, args, cl.srvNonce, cl.window[0]);
            && c in t.clients && t.clients[c].nextXid == cl.nextXid + 1
            && Pending(t, c, cl.nextXid) && OnlyCall(cl.calls, t.clients[c].calls, cl.nextXid)
            && cl.nextXid in t.clients[c].sent && t.clients[c].sent[cl.nextXid] == m
            && t.requests == s.requests + {m} && OnlyClients(s, t)
            && (t.clients[c].bindDone, t.clients[c].srvNonce, t.clients[c].destroyWait)
               == (cl.bindDone, cl.srvNonce, cl.destroyWait)
  {
  }

  /** A reply completes the call that waits for it, with its own status and body; a
      call that has finished or ended keeps its outcome. */
  lemma GotReplyExactly(s: State, m: ReplyMsg)
    requires CanTake(s, GotReply(m)) && Numbered(s.clients[m.clt])
    ensures var t, cl := Next(s, GotReply(m)), s.clients[m.clt];
            && OnlyClient(s, t, m.clt) && SameStanding(cl, t.clients[m.clt])
            && (Pending(s, m.clt, m.xid) ==>
                  && m.xid in t.clients[m.clt].calls && t.clients[m.clt].calls[m.xid] == Finished(m.reply, m.from)
                  && OnlyCall(cl.calls, t.clients[m.clt].calls, m.xid))
            && (!Pending(s, m.clt, m.xid) ==> t.clients[m.clt].calls == cl.calls)
            && t.clients[m.clt].ended == cl.ended
            && (forall k :: Acked(t.clients[m.clt].window, k) <==> Acked(cl.window, k) || k == m.xid)
  {
    ReportSpec(s.clients[m.clt].window, m.xid);
  }

  /** A call returns what completed it, and the timeout failure if nothing did. */
  lemma ReturnExactly(s: State, c: nat, x: nat)
    requires CanTake(s, Return(c, x)) && Numbered(s.clients[c])
    ensures var t, cl := Next(s, Return(c, x)), s.clients[c];
            && OnlyClient(s, t, c) && SameStanding(cl, t.clients[c])
            && x !in t.clients[c].calls && OnlyCall(cl.calls, t.clients[c].calls, x)
            && x in t.clients[c].ended && OnlyCall(cl.ended, t.clients[c].ended, x)
            && t.clients[c].ended[x] == (if cl.calls[x].Waiting? then TIMED_OUT else cl.calls[x])
            && (forall k :: Acked(t.clients[c].window, k) <==> Acked(cl.window, k) || k == x)
  {
    ReportSpec(s.clients[c].window, x);
  }

  /** cancel fails every outstanding call, finished ones included, and bars new calls
      if there were any. */
  lemma CancelExactly(s: State, c: nat)
    requires CanTake(s, Cancel(c))
    ensures var t, cl := Next(s, Cancel(c)), s.clients[c];
            && OnlyClient(s, t, c)
            && t.clients[c].calls.Keys == cl.calls.Keys
            && (forall x :: x in cl.calls ==> t.clients[c].calls[x] == CANCELLED)
            && (t.clients[c].destroyWait <==> cl.destroyWait || cl.calls != map[])
            && t.clients[c].ended == cl.ended
  {
    assert s.clients[c].calls != map[] <==> |s.clients[c].calls| > 0;
  }

  /** A bind that returned 0 binds the client to the nonce in the reply. */
  lemma BindExactly(s: State, c: nat, x: nat)
    requires CanTake(s, BindReturned(c, x))
    ensures var t, cl := Next(s, BindReturned(c, x)), s.clients[c];
            && OnlyClient(s, t, c)
            && t.clients[c].bindDone && t.clients[c].srvNonce == cl.ended[x].reply.body[0]
            && t.clients[c].calls == cl.calls && t.clients[c].destroyWait == cl.destroyWait
  {
  }

  /** A restarted server has its new nonce and knows no client. */
  lemma RestartExactly(s: State, n: nat)
    requires CanTake(s, Restart(n))
    ensures var t := Next(s, Restart(n));
            && t.nonce == n && n in t.nonces && s.nonces <= t.nonces
            && t.clients == s.clients && t.requests == s.requests && t.replies == s.replies
            && t.log == s.log && t.outputs == s.outputs
            && forall c :: c !in t.server.tables.window && c !in t.server.tables.bound && c !in t.server.tables.seen
  {
  }

  lemma RejectExactly(s: State, m: Request)
    requires CanTake(s, RejectOld(m))
    ensures var t := Next(s, RejectOld(m));
            && t.replies == s.replies + {ReplyMsg(m.clt, m.xid, Reply(OLDSRV_FAILURE, []), s.nonce)}
            && t == s.(replies := t.replies)
  {
  }

  /** dispatch admits the client first, so that its request can then be checked. */
  lemma AdmittedCanBeChecked(s: State, m: Request)
    requires CanTake(s, AdmitClient(m))
    ensures var t := Next(s, AdmitClient(m));
            && Enabled(t, Classify(m)) && m.clt in t.server.tables.window
            && t.server.hist == s.server.hist && t == s.(server := t.server)
            && (forall c :: Window(t.server.tables, c) == Window(s.server.tables, c))
            && t.server.tables.bound == s.server.tables.bound && t.server.tables.seen == s.server.tables.seen
  {
  }

  /** What a dispatched request is answered at once: its saved reply or a failure, and
      nothing while it runs. */
  lemma ClassifyReplies(s: State, m: Request)
    requires CanTake(s, Classify(m))
    ensures var t, v := Next(s, Classify(m)), VerdictOn(s, m);
            && (v.Done? ==> t.replies == s.replies + {ReplyMsg(m.clt, m.xid, v.reply, s.nonce)})
            && (v.Forgotten? ==> t.replies == s.replies + {ReplyMsg(m.clt, m.xid, Reply(ATMOSTONCE_FAILURE, []), s.nonce)})
            && (v.New? || v.InProgress? ==> t.replies == s.replies)
  {
  }

  /** A handler's result is recorded and sent. */
  lemma HandlerDoneExactly(s: State, c: nat, x: nat, r: Reply)
    requires CanTake(s, HandlerDone(c, x, r))
    ensures var t := Next(s, HandlerDone(c, x, r));
            && t.replies == s.replies + {ReplyMsg(c, x, r, s.nonce)}
            && t.outputs == s.outputs[Run(s.nonce, c, x) := r]
            && t.clients == s.clients && t.requests == s.requests && t.nonce == s.nonce && t.log == s.log
  {
  }

  // --------------------------------------------------------- sent things stay sent

  ghost predicate OutputsSent(replies: set<ReplyMsg>, outputs: map<Run, Reply>) {
    forall r :: r in outputs ==> ReplyMsg(r.clt, r.xid, outputs[r], r.srv) in replies
  }

  ghost predicate RequestsSent(clients: map<nat, Client>, requests: set<Request>) {
    forall c, x :: c in clients && x in clients[c].sent ==> clients[c].sent[x] in requests
  }

  ghost predicate AllSent(s: State) {
    OutputsSent(s.replies, s.outputs) && RequestsSent(s.clients, s.requests)
  }

  lemma SentOfOne(clients: map<nat, Client>, c: nat, d: Client, requests: set<Request>)
    requires RequestsSent(clients, requests) && (forall x :: x in d.sent ==> d.sent[x] in requests)
    ensures RequestsSent(clients[c := d], requests)
  {
  }

  lemma ServerStepSends(s: State, step: Step)
    requires AllSent(s) && CanTake(s, step) && !ClientSide(step)
    ensures AllSent(Next(s, step))
  {
    match step
    case Restart(n) =>
    case RejectOld(m) =>
    case AdmitClient(m) =>
    case Classify(m) => ClassifyEffect(s, m);
    case HandlerDone(c, x, r) => HandlerDoneExactly(s, c, x, r);
  }

  lemma ClientStepSends(s: State, step: Step)
    requires AllSent(s) && CanTake(s, step) && ClientSide(step)
    ensures AllSent(Next(s, step))
  {
    match step
    case Join(c) => SentOfOne(s.clients, c, NEW_CLIENT, s.requests);
    case Begin(c, proc, args) =>
      var d := BeginCall(c, s.clients[c], proc, args);
      SentOfOne(s.clients, c, d, Next(s, step).requests);
    case GotReply(m) => SentOfOne(s.clients, m.clt, TakeReply(s.clients[m.clt], m), s.requests);
    case Return(c, x) => SentOfOne(s.clients, c, EndCall(s.clients[c], x), s.requests);
    case Cancel(c) => SentOfOne(s.clients, c, CancelCalls(s.clients[c]), s.requests);
    case BindReturned(c, x) => SentOfOne(s.clients, c, Binding(s.clients[c], x), s.requests);
  }

  /** In every run each call's request and each handler's result are on the network. */
  lemma {:induction false} EverythingIsSent(nonce: nat, steps: seq<Step>)
    requires nonce != 0 && Possible(nonce, steps)
    ensures Exec(nonce, steps).At? && Inv(Exec(nonce, steps).state) && AllSent(Exec(nonce, steps).state)
  {
    RunsKeepInv(nonce, steps);
    if steps != [] {
      var before, last := steps[..|steps| - 1], steps[|steps| - 1];
      EverythingIsSent(nonce, before);
      if ClientSide(last) {
        ClientStepSends(Exec(nonce, before).state, last);
      } else {
        ServerStepSends(Exec(nonce, before).state, last);
      }
    }
  }

  // ------------------------------------------------------ the first reply decides

  /** Call `x` has finished or ended with outcome `out`. */
  predicate Decided(clients: map<nat, Client>, c: nat, x: nat, out: Call) {
    && c in clients && x in clients[c].sent
    && if x in clients[c].calls then clients[c].calls[x] == out
       else x in clients[c].ended && clients[c].ended[x] == out
  }

  lemma DecidedStaysServer(s: State, step: Step, c: nat, x: nat, out: Call)
    requires CanTake(s, step) && !ClientSide(step) && Decided(s.clients, c, x, out)
    ensures Decided(Next(s, step).clients, c, x, out)
  {
    if step.Classify? {
      ClassifyEffect(s, step.req);
    }
  }

  /** Only a cancel can still change the outcome of a call. */
  lemma DecidedStays(s: State, step: Step, c: nat, x: nat, out: Call)
    requires CanTake(s, step) && Decided(s.clients, c, x, out) && out.Finished? && Numbered(s.clients[c])
    requires step == Cancel(c) ==> x !in s.clients[c].calls || out == CANCELLED
    ensures Decided(Next(s, step).clients, c, x, out)
  {
    if !ClientSide(step) {
      DecidedStaysServer(s, step, c, x, out);
    }
  }

  /** How a run goes on from a state it has reached. */
  lemma Suffix(nonce: nat, steps: seq<Step>, more: seq<Step>, i: nat)
    requires i <= |more|
    ensures (steps + more)[..|steps| + i] == steps + more[..i]
  {
  }

  lemma {:induction false} DecidedLater(nonce: nat, steps: seq<Step>, more: seq<Step>, c: nat, x: nat, out: Call)
    requires nonce != 0 && Possible(nonce, steps + more) && Possible(nonce, steps)
    requires Exec(nonce, steps).At? && Decided(Exec(nonce, steps).state.clients, c, x, out) && out.Finished?
    requires Cancel(c) in more ==> out == CANCELLED
    ensures Exec(nonce, steps + more).At? && Decided(Exec(nonce, steps + more).state.clients, c, x, out)
  {
    if more == [] {
      assert steps + more == steps;
    } else {
      var n := |more| - 1;
      var before := steps + more[..n];
      Suffix(nonce, steps, more, n);
      assert (steps + more)[..|steps + more| - 1] == before && (steps + more)[|steps + more| - 1] == more[n];
      DecidedLater(nonce, steps, more[..n], c, x, out);
      RunsKeepInv(nonce, steps + more);
      RunsKeepInv(nonce, before);
      DecidedStays(Exec(nonce, before).state, more[n], c, x, out);
    }
  }

  lemma {:induction false} PrefixPossible(nonce: nat, steps: seq<Step>, more: seq<Step>)
    requires Possible(nonce, steps + more)
    ensures Possible(nonce, steps)
  {
    if more == [] {
      assert steps + more == steps;
    } else {
      assert (steps + more)[..|steps + more| - 1] == steps + more[..|more| - 1];
      PrefixPossible(nonce, steps, more[..|more| - 1]);
    }
  }

  lemma LastStep(nonce: nat, steps: seq<Step>, step: Step)
    requires nonce != 0 && Possible(nonce, steps + [step])
    ensures Possible(nonce, steps) && Exec(nonce, steps).At? && Inv(Exec(nonce, steps).state)
    ensures CanTake(Exec(nonce, steps).state, step)
    ensures Exec(nonce, steps + [step]) == At(Next(Exec(nonce, steps).state, step))
  {
    assert (steps + [step])[..|steps|] == steps;
    RunsKeepInv(nonce, steps);
    RunsKeepInv(nonce, steps + [step]);
  }

  /** In every run, the first reply that reaches a waiting call is what it returns,
      whatever arrives later, unless the call is cancelled before it returns. */
  lemma FirstReplyDecides(nonce: nat, steps: seq<Step>, m: ReplyMsg, more: seq<Step>)
    requires nonce != 0 && Possible(nonce, steps + [GotReply(m)] + more) && Exec(nonce, steps).At?
    requires Pending(Exec(nonce, steps).state, m.clt, m.xid) && Cancel(m.clt) !in more
    ensures Exec(nonce, steps + [GotReply(m)] + more).At?
    ensures var t := Exec(nonce, steps + [GotReply(m)] + more).state;
            && Decided(t.clients, m.clt, m.xid, Finished(m.reply, m.from))
            && (m.xid !in t.clients[m.clt].calls ==>
                  m.xid in t.clients[m.clt].ended && t.clients[m.clt].ended[m.xid].reply == m.reply)
  {
    PrefixPossible(nonce, steps + [GotReply(m)], more);
    LastStep(nonce, steps, GotReply(m));
    GotReplyExactly(Exec(nonce, steps).state, m);
    DecidedLater(nonce, steps + [GotReply(m)], more, m.clt, m.xid, Finished(m.reply, m.from));
  }

  /** In every run, a call outstanding at a cancel returns the cancel failure, whatever
      replies arrive. */
  lemma CancelDecides(nonce: nat, steps: seq<Step>, c: nat, more: seq<Step>, x: nat)
    requires nonce != 0 && Possible(nonce, steps + [Cancel(c)] + more) && Exec(nonce, steps).At?
    requires c in Exec(nonce, steps).state.clients && x in Exec(nonce, steps).state.clients[c].calls
    ensures Exec(nonce, steps + [Cancel(c)] + more).At?
    ensures var t := Exec(nonce, steps + [Cancel(c)] + more).state;
            && Decided(t.clients, c, x, CANCELLED)
            && (x !in t.clients[c].calls ==> x in t.clients[c].ended && t.clients[c].ended[x].reply.ret == CANCEL_FAILURE)
  {
    PrefixPossible(nonce, steps + [Cancel(c)], more);
    LastStep(nonce, steps, Cancel(c));
    CancelExactly(Exec(nonce, steps).state, c);
    DecidedLater(nonce, steps + [Cancel(c)], more, c, x, CANCELLED);
  }

  predicate Barred(s: State, c: nat) { c in s.clients && s.clients[c].destroyWait }

  lemma BarredStays(s: State, step: Step, c: nat)
    requires CanTake(s, step) && Barred(s, c)
    ensures Barred(Next(s, step), c)
  {
    if step.Classify? {
      ClassifyEffect(s, step.req);
    }
  }

  lemma {:induction false} BarredLater(nonce: nat, steps: seq<Step>, more: seq<Step>, c: nat)
    requires nonce != 0 && Possible(nonce, steps + more) && Exec(nonce, steps).At? && Barred(Exec(nonce, steps).state, c)
    ensures Exec(nonce, steps + more).At? && Barred(Exec(nonce, steps + more).state, c)
  {
    if more == [] {
      assert steps + more == steps;
    } else {
      var n := |more| - 1;
      assert steps + more == steps + more[..n] + [more[n]];
      LastStep(nonce, steps + more[..n], more[n]);
      BarredLater(nonce, steps, more[..n], c);
      BarredStays(Exec(nonce, steps + more[..n]).state, more[n], c);
    }
  }

  /** In every run, after a cancel that found a call outstanding the client never
      begins another. */
  lemma CancelBars(nonce: nat, steps: seq<Step>, c: nat, more: seq<Step>, proc: nat, args: seq<int>)
    requires nonce != 0 && Possible(nonce, steps + [Cancel(c)] + more) && Exec(nonce, steps).At?
    requires c in Exec(nonce, steps).state.clients && Exec(nonce, steps).state.clients[c].calls != map[]
    ensures Exec(nonce, steps + [Cancel(c)] + more).At?
    ensures !Enabled(Exec(nonce, steps + [Cancel(c)] + more).state, Begin(c, proc, args))
  {
    PrefixPossible(nonce, steps + [Cancel(c)], more);
    LastStep(nonce, steps, Cancel(c));
    CancelExactly(Exec(nonce, steps).state, c);
    BarredLater(nonce, steps + [Cancel(c)], more, c);
  }
}
