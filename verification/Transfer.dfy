/** That PDUs get through: exactly when a read or a write ends the connection, and that
    without such an end every PDU passes whole, however it is split. */
module Transfer {
  import opened Marshall
  import opened Framing

  ghost predicate Linked(run: seq<State>, steps: seq<Step>) {
    && |run| == |steps| + 1
    && forall i :: 0 <= i < |steps| ==> Enabled(run[i], steps[i]) && run[i + 1] == Next(run[i], steps[i])
  }

  lemma LinkFirst(s: State, step: Step, run: seq<State>, steps: seq<Step>)
    requires Enabled(s, step) && Linked(run, steps) && run[0] == Next(s, step)
    ensures Linked([s] + run, [step] + steps)
  {
  }

  function Sum(ns: seq<nat>): nat { if ns == [] then 0 else ns[0] + Sum(ns[1..]) }

  // ------------------------------------------------------------- when a side dies

  predicate Reading(s: State) { s.r.buf.None? || s.r.solong < s.r.sz }

  /** The next PDU on the wire is longer than the receiver takes. */
  predicate TooLong(s: State) { |s.got| < |s.sent| && |s.sent[|s.got|]| > MAX_PDU }

  /** In every run, a read event ends a live receiver exactly if it did read, and the
      length came short or not at all, or was too long, or reading the body failed. */
  lemma ReadEndsExactly(run: seq<State>, steps: seq<Step>, i: nat)
    requires IsRun(run, steps) && i < |steps| && steps[i].ReadReady?
    ensures var s, head, body := run[i], steps[i].head, steps[i].body;
            run[i + 1].rdead <==>
              Reading(s) && ((s.r.buf.None? && (head != Moved(4) || TooLong(s))) || body.Failed?)
  {
    RunInv(run, steps, i);
    var s := run[i];
    if s.r.buf.None? && steps[i].head == Moved(4) {
      HeaderSpec(s);
    }
  }

  /** A write ends a live sender exactly if it fails with bytes still to go. */
  lemma WriteEndsExactly(s: State, step: Step)
    requires SenderInv(s) && Enabled(s, step) && !s.wdead && (step.SendStart? || step.WriteReady?)
    ensures Next(s, step).wdead <==>
            step.io.Failed? && (step.SendStart? || (s.w.sz != 0 && s.w.solong < s.w.sz))
  {
  }

  // ---------------------------------------------------------------------- reading

  /** The next PDU is of ordinary size and wholly on the wire. */
  predicate Ready(s: State) {
    && |s.got| < |s.sent| && |s.sent[|s.got|]| <= MAX_PDU
    && |All(s.sent[..|s.got| + 1])| <= |s.wire|
  }

  /** How much of it has been read; the length is read along with the first bytes. */
  function Read(s: State): int { if s.r.buf.None? then 4 else s.r.solong }

  function HeadRead(s: State): Io { if s.r.buf.None? then Moved(4) else Again }

  predicate SameWire(s: State, t: State) { t.sent == s.sent && t.wire == s.wire }

  lemma ReadFitsReady(s: State, n: nat)
    requires Inv(s) && !s.rdead && Ready(s) && 1 <= n <= |s.sent[|s.got|]| - Read(s)
    ensures ReadFits(s.r, s.wire[s.pos..], HeadRead(s), Moved(n))
  {
    AllUpTo(s.sent, |s.got|);
    if s.r.buf.None? {
      HeaderSpec(s);
    }
  }

  lemma ReadOk(s: State, n: nat)
    requires Inv(s) && !s.rdead && Ready(s) && 1 <= n <= |s.sent[|s.got|]| - Read(s)
    requires ReadFits(s.r, s.wire[s.pos..], HeadRead(s), Moved(n))
    ensures var (r, taken, ok) := ReadPdu(s.r, s.wire[s.pos..], HeadRead(s), Moved(n));
            ok && r.sz == |s.sent[|s.got|]| && r.solong == Read(s) + n
  {
    if s.r.buf.None? {
      HeaderSpec(s);
    }
  }

  /** The receiver after a read, before the PDU is offered. */
  lemma CollectAdvances(s: State, n: nat)
    requires Inv(s) && !s.rdead && Ready(s) && 1 <= n <= |s.sent[|s.got|]| - Read(s)
    ensures Enabled(s, ReadReady(HeadRead(s), Moved(n), false))
    ensures var t := Collect(s, HeadRead(s), Moved(n));
            && !t.rdead && SameWire(s, t) && t.got == s.got
            && t.r == Charbuf(Some(Frame(s.sent[|s.got|])[..Read(s) + n]), |s.sent[|s.got|]|, Read(s) + n)
  {
    ReadFitsReady(s, n);
    ReadOk(s, n);
    ReadSpec(s, HeadRead(s), Moved(n));
  }

  /** Any read of a ready PDU is possible, brings exactly its next bytes, and offers it
      once it is complete. */
  lemma ReadAdvances(s: State, n: nat, accept: bool)
    requires Inv(s) && !s.rdead && Ready(s) && 1 <= n <= |s.sent[|s.got|]| - Read(s)
    ensures Enabled(s, ReadReady(HeadRead(s), Moved(n), accept))
    ensures var t, p, k := Next(s, ReadReady(HeadRead(s), Moved(n), accept)), s.sent[|s.got|], Read(s) + n;
            && !t.rdead && SameWire(s, t)
            && if k == |p| && accept then t.got == s.got + [Frame(p)] && t.r == IDLE
               else t.got == s.got && t.r == Charbuf(Some(Frame(p)[..k]), |p|, k)
  {
    CollectAdvances(s, n);
    var p := s.sent[|s.got|];
    assert Frame(p)[..|p|] == Frame(p);
  }

  /** A refused PDU is offered again, whole, at the next event, with nothing read. */
  lemma RefusedIsOfferedAgain(s: State)
    requires Inv(s) && !s.rdead && !Reading(s)
    ensures Enabled(s, ReadReady(Again, Again, true))
    ensures var t := Next(s, ReadReady(Again, Again, true));
            && |s.got| < |s.sent| && t.got == s.got + [Frame(s.sent[|s.got|])]
            && t.r == IDLE && !t.rdead && t.pos == s.pos && SameWire(s, t)
  {
    var p := s.sent[|s.got|];
    assert Frame(p)[..|p|] == Frame(p);
  }

  /** `k` bytes of PDU `p` have been read and the rest is on the wire. */
  ghost predicate Receiving(s: State, p: Pdu, k: int) {
    Inv(s) && !s.rdead && Ready(s) && Reading(s) && s.sent[|s.got|] == p && k == Read(s)
  }

  predicate Received(s: State, t: State, p: Pdu) {
    !t.rdead && SameWire(s, t) && t.got == s.got + [Frame(p)] && t.r == IDLE
  }

  lemma ReceiveStep(s: State, p: Pdu, k: int, n: nat)
    requires Receiving(s, p, k) && 1 <= n <= |p| - k
    ensures Enabled(s, ReadReady(HeadRead(s), Moved(n), true))
    ensures var t := Next(s, ReadReady(HeadRead(s), Moved(n), true));
            if k + n == |p| then Received(s, t, p)
            else Receiving(t, p, k + n) && SameWire(s, t) && t.got == s.got
  {
    ReadAdvances(s, n, true);
    StepKeeps(s, ReadReady(HeadRead(s), Moved(n), true));
  }

  lemma ReceivingMore(s: State, p: Pdu, k: int)
    requires Receiving(s, p, k)
    ensures k < |p|
  {
  }

  lemma {:induction false} ReadsFinish(s: State, p: Pdu, k: int, ns: seq<nat>) returns (run: seq<State>, steps: seq<Step>)
    requires Receiving(s, p, k) && (forall i :: 0 <= i < |ns| ==> ns[i] > 0) && Sum(ns) == |p| - k
    ensures Linked(run, steps) && run[0] == s && |steps| == |ns|
    ensures forall i :: 0 <= i < |steps| ==> steps[i].ReadReady? && steps[i].body == Moved(ns[i])
    ensures Received(s, run[|steps|], p)
    decreases |ns|
  {
    ReceivingMore(s, p, k);
    var step := ReadReady(HeadRead(s), Moved(ns[0]), true);
    ReceiveStep(s, p, k, ns[0]);
    var t := Next(s, step);
    if |ns| == 1 {
      run, steps := [s, t], [step];
    } else {
      assert Sum(ns[1..]) >= ns[1];
      run, steps := ReadsFinish(t, p, k + ns[0], ns[1..]);
      LinkFirst(s, step, run, steps);
      run, steps := [s] + run, [step] + steps;
    }
  }

  /** A PDU of at most MAX_PDU bytes that is wholly on the wire reaches the consumer, as
      exactly its frame, for every split of the rest of it into reads. */
  lemma EverySplitIsRead(s: State, ns: seq<nat>) returns (run: seq<State>, steps: seq<Step>)
    requires Inv(s) && !s.rdead && Ready(s) && Reading(s)
    requires (forall i :: 0 <= i < |ns| ==> ns[i] > 0) && Sum(ns) == |s.sent[|s.got|]| - Read(s)
    ensures Linked(run, steps) && run[0] == s && |steps| == |ns|
    ensures forall i :: 0 <= i < |steps| ==> steps[i].ReadReady? && steps[i].body == Moved(ns[i])
    ensures Received(s, run[|steps|], s.sent[|s.got|])
  {
    run, steps := ReadsFinish(s, s.sent[|s.got|], Read(s), ns);
  }

  // ---------------------------------------------------------------------- writing

  /** `p` is being sent from state `s0`, and `k` bytes of it are out. */
  ghost predicate Sending(s: State, s0: State, p: Pdu, k: nat) {
    && 0 < k <= |p| && !s.wdead && s.w == Charbuf(Some(Frame(p)), |p|, k)
    && s.sent == s0.sent + [p] && s.results == s0.results && s.wire == s0.wire + Frame(p)[..k]
  }

  /** It has been sent, and send has returned true. */
  ghost predicate Sent(s: State, s0: State, p: Pdu) {
    && !s.wdead && s.w == IDLE && s.sent == s0.sent + [p]
    && s.results == s0.results + [true] && s.wire == s0.wire + Frame(p)
  }

  lemma Longer(wire: seq<Byte>, f: seq<Byte>, k: nat, n: nat)
    requires k + n <= |f|
    ensures wire + f[..k] + f[k..k + n] == wire + f[..k + n]
  {
    assert f[..k] + f[k..k + n] == f[..k + n];
  }

  lemma StartSends(s: State, p: Pdu, n: nat)
    requires !s.wdead && s.w == IDLE && 0 < n <= |p|
    ensures Enabled(s, SendStart(p, Moved(n))) && Sending(Next(s, SendStart(p, Moved(n))), s, p, n)
  {
  }

  lemma WriteSends(s: State, s0: State, p: Pdu, k: nat, n: nat)
    requires Sending(s, s0, p, k) && n > 0 && k + n <= |p|
    ensures Enabled(s, WriteReady(Moved(n))) && Sending(Next(s, WriteReady(Moved(n))), s0, p, k + n)
  {
    Longer(s0.wire, Frame(p), k, n);
  }

  lemma EndSends(s: State, s0: State, p: Pdu)
    requires Sending(s, s0, p, |p|)
    ensures Enabled(s, SendEnd) && Sent(Next(s, SendEnd), s0, p)
  {
    assert Frame(p)[..|p|] == Frame(p);
  }

  lemma {:induction false} WritesFinish(s: State, s0: State, p: Pdu, k: nat, ns: seq<nat>)
    returns (run: seq<State>, steps: seq<Step>)
    requires Sending(s, s0, p, k) && (forall i :: 0 <= i < |ns| ==> ns[i] > 0) && Sum(ns) == |p| - k
    ensures Linked(run, steps) && run[0] == s && |steps| == |ns| + 1
    ensures forall i :: 0 <= i < |ns| ==> steps[i] == WriteReady(Moved(ns[i]))
    ensures Sent(run[|steps|], s0, p)
    decreases |ns|
  {
    if ns == [] {
      EndSends(s, s0, p);
      run, steps := [s, Next(s, SendEnd)], [SendEnd];
    } else {
      var step := WriteReady(Moved(ns[0]));
      WriteSends(s, s0, p, k, ns[0]);
      run, steps := WritesFinish(Next(s, step), s0, p, k + ns[0], ns[1..]);
      LinkFirst(s, step, run, steps);
      run, steps := [s] + run, [step] + steps;
    }
  }

  /** On a live connection with nothing being sent, send puts exactly the frame on the
      wire and returns true, for every split into writes. */
  lemma EverySplitIsSent(s: State, p: Pdu, ns: seq<nat>) returns (run: seq<State>, steps: seq<Step>)
    requires !s.wdead && s.w == IDLE
    requires ns != [] && (forall i :: 0 <= i < |ns| ==> ns[i] > 0) && Sum(ns) == |p|
    ensures Linked(run, steps) && run[0] == s && |steps| == |ns| + 1
    ensures steps[0] == SendStart(p, Moved(ns[0]))
    ensures forall i :: 1 <= i < |ns| ==> steps[i] == WriteReady(Moved(ns[i]))
    ensures Sent(run[|steps|], s, p)
  {
    var step := SendStart(p, Moved(ns[0]));
    StartSends(s, p, ns[0]);
    run, steps := WritesFinish(Next(s, step), s, p, ns[0], ns[1..]);
    LinkFirst(s, step, run, steps);
    run, steps := [s] + run, [step] + steps;
  }

  /** Once sent, it is ready for a receiver that has taken all earlier PDUs. */
  lemma SentIsReady(s: State, t: State, p: Pdu)
    requires Inv(s) && !s.wdead && s.w == IDLE && |s.got| == |s.sent| && |p| <= MAX_PDU
    requires Sent(t, s, p) && t.got == s.got
    ensures Ready(t) && t.sent[|t.got|] == p
  {
    assert t.sent[..|t.got| + 1] == t.sent;
    assert t.sent[..|t.sent| - 1] == s.sent;
  }
}
