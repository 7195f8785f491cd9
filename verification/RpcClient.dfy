/** The client object: the critical sections of call1, got_pdu, cancel and bind, each
    doing to the object what the protocol's client step does to the client's value. */
module RpcClient {
  import opened Messages
  import opened XidWindow
  import opened AtMostOnce

  const NO_FAILURE := 0

  const CANCELLED := Finished(Reply(CANCEL_FAILURE, []), 0)

  lemma AllCancelled(before: map<nat, Call>, after: map<nat, Call>)
    requires after.Keys == before.Keys && forall x :: x in after ==> after[x] == CANCELLED
    ensures after == (map x | x in before :: Finished(Reply(CANCEL_FAILURE, []), 0)) && |after| == |before|
  {
    assert |after| == |after.Keys| && |before| == |before.Keys|;
  }

  class Rpcc {
    const cltNonce: nat
    var nextXid: nat
    var srvNonce: nat
    var bindDone: bool
    var destroyWait: bool
    var calls: map<nat, Call>
    const window: XidRepWindow
    ghost var sent: map<nat, Request>
    ghost var ended: map<nat, Call>

    ghost function State(): Client
      reads this, window
    {
      Client(nextXid, srvNonce, bindDone, destroyWait, calls, window.window, sent, ended)
    }

    ghost predicate Valid()
      reads this, window
    {
      WellFormed(window.window)
    }

    constructor (nonce: nat)
      ensures Valid() && fresh(window) && cltNonce == nonce && State() == NEW_CLIENT
    {
      cltNonce, nextXid, srvNonce, bindDone, destroyWait, calls := nonce, 1, 0, false, false, map[];
      window := new XidRepWindow();
      sent, ended := map[], map[];
    }

    /** The first section of call1.  It refuses a call before bind, a second bind, and
        any call once cancel is waiting; otherwise it begins the call. */
    method StartCall(proc: nat, args: seq<int>) returns (failure: int, req: seq<Request>)
      requires Valid()
      modifies this
      ensures Valid()
      ensures failure == (if (proc == BIND) == old(bindDone) then BIND_FAILURE
                          else if old(destroyWait) then CANCEL_FAILURE else NO_FAILURE)
      ensures failure != NO_FAILURE ==> State() == old(State()) && req == []
      ensures failure == NO_FAILURE ==>
                && State() == BeginCall(cltNonce, old(State()), proc, args)
                && req == [Request(cltNonce, old(nextXid), proc, args, srvNonce, window.window[0])]
                && nextXid == old(nextXid) + 1 && calls == old(calls)[old(nextXid) := Waiting]
    {
      if (proc != BIND && !bindDone) || (proc == BIND && bindDone) {
        return BIND_FAILURE, [];
      }
      if destroyWait {
        return CANCEL_FAILURE, [];
      }
      var xid := nextXid;
      nextXid := nextXid + 1;
      calls := calls[xid := Waiting];
      var h := Request(cltNonce, xid, proc, args, srvNonce, window.window[0]);
      sent := sent[xid := h];
      return NO_FAILURE, [h];
    }

    /** got_pdu, for a reply with a readable header. */
    method GotPdu(m: ReplyMsg)
      requires Valid()
      modifies this, window
      ensures Valid() && State() == TakeReply(old(State()), m)
      ensures m.xid in old(calls) && old(calls)[m.xid].Waiting? ==>
                calls == old(calls)[m.xid := Finished(m.reply, m.from)]
      ensures m.xid !in old(calls) || old(calls)[m.xid].Finished? ==> calls == old(calls)
      ensures forall k :: Acked(window.window, k) <==> old(Acked(window.window, k)) || k == m.xid
    {
      window.UpdateXidRep(m.xid);
      if m.xid !in calls {
        return;
      }
      if calls[m.xid].Waiting? {
        calls := calls[m.xid := Finished(m.reply, m.from)];
      }
    }

    /** The last section of call1: after a reply, a cancel or the final deadline. */
    method FinishCall(xid: nat) returns (reply: Reply)
      requires Valid() && xid in calls
      modifies this, window
      ensures Valid() && State() == EndCall(old(State()), xid)
      ensures reply == Settled(old(calls[xid])).reply
      ensures if old(calls[xid]).Waiting? then reply.ret == TIMEOUT_FAILURE else reply == old(calls[xid]).reply
      ensures calls == old(calls) - {xid} && ended == old(ended)[xid := Settled(old(calls[xid]))]
    {
      var ca := calls[xid];
      ended := ended[xid := Settled(ca)];
      calls := calls - {xid};
      window.UpdateXidRep(xid);
      reply := if ca.Finished? then ca.reply else Reply(TIMEOUT_FAILURE, []);
    }

    /** cancel up to its wait: every caller fails, whether or not its reply is in. */
    method CancelAll()
      requires Valid()
      modifies this`calls, this`destroyWait
      ensures Valid() && State() == CancelCalls(old(State()))
      ensures calls.Keys == old(calls.Keys)
      ensures forall x :: x in calls ==> calls[x].Finished? && calls[x].reply.ret == CANCEL_FAILURE
      ensures destroyWait <==> old(destroyWait) || old(calls) != map[]
    {
      var rest := calls.Keys;
      while rest != {}
        invariant rest <= calls.Keys == old(calls.Keys) && destroyWait == old(destroyWait)
        invariant forall x :: x in calls && x !in rest ==> calls[x] == CANCELLED
        decreases |rest|
      {
        var x :| x in rest;
        calls := calls[x := CANCELLED];
        rest := rest - {x};
      }
      AllCancelled(old(calls), calls);
      if |calls| > 0 {
        destroyWait := true;
      }
    }

    /** The end of bind: only a reply 0 makes the client bound. */
    method FinishBind(reply: Reply) returns (ret: int)
      requires Valid() && (reply.ret >= 0 ==> |reply.body| == 1 && reply.body[0] >= 0)
      modifies this
      ensures Valid() && ret == reply.ret
      ensures ret != 0 ==> State() == old(State())
      ensures ret == 0 ==> bindDone && srvNonce == reply.body[0] && calls == old(calls)
      ensures forall x :: ret == 0 && x in old(ended) && old(ended)[x].Finished? && old(ended)[x].reply == reply ==>
                State() == Binding(old(State()), x)
    {
      ret := reply.ret;
      if ret == 0 {
        bindDone := true;
        srvNonce := reply.body[0];
      }
    }
  }
}
