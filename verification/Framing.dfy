/** PDU framing on a connection: senders take turns on one write buffer, a PDU may
    go out in many partial writes, and the other end collects it in many partial
    reads.  The first four bytes of a PDU carry its length. */
module Framing {
  import opened Marshall

  const MAX_PDU := 0xA0_0000

  datatype Option<T> = None | Some(value: T)

  /** A buffer that send() accepts: it starts with the RPC header. */
  type Pdu = p: seq<Byte> | HEADER <= |p| < 0x8000_0000 witness seq(HEADER, _ => 0)

  /** The outcome of write(2) or read(2). */
  datatype Io = Moved(n: nat) | Again | Failed

  datatype Charbuf = Charbuf(buf: Option<seq<Byte>>, sz: int, solong: int)

  const IDLE := Charbuf(None, 0, 0)

  // --------------------------------------------------------- the two primitives

  /** What a PDU looks like on the wire: its size replaces the first four bytes. */
  function Frame(p: seq<Byte>): (f: seq<Byte>)
    requires |p| >= 4
    ensures |f| == |p|
  {
    BE(|p|, 4) + p[4..]
  }

  predicate WriteFits(w: Charbuf, io: Io) {
    && w.buf.Some? && |w.buf.value| == w.sz && w.sz >= 4 && 0 <= w.solong <= w.sz
    && (io.Moved? ==> w.solong + io.n <= w.sz)
  }

  /** writepdu: the buffer, the bytes that went out, and success. */
  function WritePdu(w: Charbuf, io: Io): (Charbuf, seq<Byte>, bool)
    requires WriteFits(w, io)
  {
    if w.solong == w.sz then (w, [], true)
    else
      var b := if w.solong == 0 then Frame(w.buf.value) else w.buf.value;
      match io
      case Moved(n) => (Charbuf(Some(b), w.sz, w.solong + n), b[w.solong..w.solong + n], true)
      case Again => (Charbuf(Some(b), w.sz, w.solong), [], true)
      case Failed => (Charbuf(Some(b), 0, -1), [], false)
  }

  /** `next` are the bytes still unread on the wire. */
  predicate ReadFits(r: Charbuf, next: seq<Byte>, head: Io, body: Io) {
    && (head.Moved? ==> 1 <= head.n <= 4 && head.n <= |next|)
    && var used := if r.sz == 0 then 4 else 0;
       var sz := if r.sz == 0 && |next| >= 4 then FromBE(next[..4]) else r.sz;
       var solong := if r.sz == 0 then 4 else r.solong;
       (body.Moved? ==> 1 <= body.n && used + body.n <= |next| && solong + body.n <= sz)
  }

  /** readpdu: the buffer, how many bytes were taken, and success.  A short read of
      the length, an over-long PDU, an error or end of file all end the connection. */
  function ReadPdu(r: Charbuf, next: seq<Byte>, head: Io, body: Io): (Charbuf, nat, bool)
    requires ReadFits(r, next, head, body)
  {
    if r.sz == 0 then
      if head != Moved(4) then (r, if head.Moved? then head.n else 0, false)
      else
        var sz := FromBE(next[..4]);
        if sz > MAX_PDU then (r, 4, false)
        else ReadBody(Charbuf(Some(next[..4]), sz, 4), next[4..], 4, body)
    else ReadBody(r, next, 0, body)
  }

  function ReadBody(r: Charbuf, next: seq<Byte>, taken: nat, body: Io): (Charbuf, nat, bool)
    requires body.Moved? ==> body.n <= |next|
  {
    match body
    case Moved(n) =>
      (r.(buf := if r.buf.Some? then Some(r.buf.value + next[..n]) else r.buf, solong := r.solong + n), taken + n, true)
    case Again => (r, taken, true)
    case Failed => (IDLE, taken, false)
  }

  // ------------------------------------------------------------ both ends as one

  /** `sent` are the PDUs that got hold of the write buffer, in order; `results`
      what their sends returned; `got` the PDUs the other end's consumer took. */
  datatype State = State(
    wdead: bool, w: Charbuf, sent: seq<Pdu>, results: seq<bool>,
    wire: seq<Byte>,
    rdead: bool, r: Charbuf, pos: nat, got: seq<seq<Byte>>)

  const OPEN := State(false, IDLE, [], [], [], false, IDLE, 0, [])

  datatype Step =
    | SendStart(p: Pdu, io: Io)
    | WriteReady(io: Io)
    | SendEnd
    | SenderDies
    | ReadReady(head: Io, body: Io, accept: bool)

  predicate Enabled(s: State, step: Step) {
    match step
    case SendStart(p, io) =>
      !s.wdead && s.w.buf.None? && WriteFits(Charbuf(Some(p), |p|, 0), io)
    case WriteReady(io) => !s.wdead && (s.w.sz != 0 ==> WriteFits(s.w, io))
    case SendEnd => s.w.buf.Some? && (s.wdead || s.w.solong < 0 || s.w.solong == s.w.sz)
    case SenderDies => true
    case ReadReady(head, body, accept) =>
      !s.rdead && s.pos <= |s.wire| && ReadFits(s.r, s.wire[s.pos..], head, body)
  }

  function Next(s: State, step: Step): State
    requires Enabled(s, step)
  {
    match step
    case SendStart(p, io) =>
      var (w, out, ok) := WritePdu(Charbuf(Some(p), |p|, 0), io);
      s.(w := w, sent := s.sent + [p], wire := s.wire + out, wdead := !ok)
    case WriteReady(io) =>
      if s.w.sz == 0 then s
      else
        var (w, out, ok) := WritePdu(s.w, io);
        s.(w := w, wire := s.wire + out, wdead := !ok)
    case SendEnd =>
      s.(results := s.results + [!s.wdead && s.w.solong == s.w.sz], w := IDLE)
    case SenderDies => s.(wdead := true)
    case ReadReady(head, body, accept) => Offer(Collect(s, head, body), accept)
  }

  function Collect(s: State, head: Io, body: Io): State
    requires Enabled(s, ReadReady(head, body, false))
  {
    if s.r.buf.None? || s.r.solong < s.r.sz then
      var (r, n, ok) := ReadPdu(s.r, s.wire[s.pos..], head, body);
      s.(r := r, pos := s.pos + n, rdead := !ok)
    else s
  }

  /** A complete PDU is offered to the consumer and kept if it is refused. */
  function Offer(s: State, accept: bool): State {
    if s.r.buf.Some? && s.r.sz == s.r.solong && accept then s.(got := s.got + [s.r.buf.value], r := IDLE) else s
  }

  // ---------------------------------------------------------------- concatenation

  function All(ps: seq<Pdu>): seq<Byte> {
    if ps == [] then [] else All(ps[..|ps| - 1]) + Frame(ps[|ps| - 1])
  }

  lemma {:induction false} AllPrefix(ps: seq<Pdu>, k: nat)
    requires k <= |ps|
    ensures All(ps[..k]) <= All(ps)
  {
    if k < |ps| {
      AllPrefix(ps[..|ps| - 1], k);
      assert ps[..|ps| - 1][..k] == ps[..k];
    } else {
      assert ps[..k] == ps;
    }
  }

  lemma AllUpTo(ps: seq<Pdu>, k: nat)
    requires k < |ps|
    ensures All(ps[..k + 1]) == All(ps[..k]) + Frame(ps[k])
    ensures All(ps[..k + 1]) <= All(ps)
  {
    var q, next := ps[..k], ps[..k + 1];
    assert next[..|next| - 1] == q;
    AllPrefix(ps, k + 1);
  }

  lemma FrameSize(p: Pdu)
    ensures FromBE(Frame(p)[..4]) == |p|
  {
    ModulusIsPower(TU32);
    BERoundTrip(|p|, 4);
    assert Frame(p)[..4] == BE(|p|, 4);
  }

  // -------------------------------------------------------------------- invariant

  /** The sender: while alive, the wire holds every finished PDU and the first
      `solong` bytes of the current one; a dead one may have lost count, but the
      wire still ends inside the last PDU. */
  ghost predicate SenderInv(s: State) {
    && |s.results| + (if s.w.buf.Some? then 1 else 0) == |s.sent|
    && s.wire <= All(s.sent)
    && (s.sent != [] ==> |All(s.sent[..|s.sent| - 1])| <= |s.wire|)
    && (s.w.buf.None? ==> s.w == IDLE)
    && (s.w.buf.Some? ==> CurrentOk(s))
    && (!s.wdead && s.w.buf.None? ==> s.wire == All(s.sent))
    && (forall i :: 0 <= i < |s.results| && s.results[i] ==> |All(s.sent[..i + 1])| <= |s.wire|)
  }

  ghost predicate CurrentOk(s: State)
    requires s.w.buf.Some?
  {
    s.sent != [] &&
    var p := s.sent[|s.sent| - 1];
    if s.w.solong < 0 then s.w.solong == -1 && s.w.sz == 0 && s.wdead
    else
      && |s.w.buf.value| == |p| == s.w.sz && s.w.solong <= s.w.sz
      && (s.w.buf.value == p || s.w.buf.value == Frame(p))
      && (s.w.solong > 0 ==> s.w.buf.value == Frame(p))
      && |s.wire| == |All(s.sent[..|s.sent| - 1])| + s.w.solong
  }

  /** The receiver: what was taken are the first PDUs, whole and in order, and the
      read buffer is the beginning of the next one. */
  ghost predicate ReceiverInv(s: State) {
    && |s.got| <= |s.sent|
    && (forall i :: 0 <= i < |s.got| ==> s.got[i] == Frame(s.sent[i]))
    && s.pos <= |s.wire|
    && (!s.rdead ==>
          && |All(s.sent[..|s.got|])| + (if s.r.buf.Some? then s.r.solong else 0) == s.pos
          && (s.r.buf.None? ==> s.r == IDLE)
          && (s.r.buf.Some? ==>
                && |s.got| < |s.sent| && s.r.sz == |s.sent[|s.got|]| && 4 <= s.r.solong <= s.r.sz
                && s.r.buf.value == Frame(s.sent[|s.got|])[..s.r.solong]))
  }

  ghost predicate Inv(s: State) {
    SenderInv(s) && ReceiverInv(s)
  }

  // ----------------------------------------------------------------- preservation

  /** Growing the list of PDUs and the wire does not disturb the receiver. */
  lemma ReceiverFrame(s: State, t: State)
    requires ReceiverInv(s) && s.sent <= t.sent && s.wire <= t.wire
    requires t.rdead == s.rdead && t.r == s.r && t.pos == s.pos && t.got == s.got
    ensures ReceiverInv(t)
  {
    assert t.sent[..|s.got|] == s.sent[..|s.got|];
  }

  /** One call of writepdu in the middle of PDU `p`, which starts at `base`. */
  lemma WriteSpec(w: Charbuf, io: Io, p: Pdu)
    requires WriteFits(w, io) && |p| == w.sz
    requires w.buf.value == p || w.buf.value == Frame(p)
    requires w.solong > 0 ==> w.buf.value == Frame(p)
    ensures var (w', out, ok) := WritePdu(w, io);
            WritesPart(w, w', out, ok, p)
  {
  }

  /** The next bytes of the framed PDU go out and are counted, or the buffer is spoiled. */
  ghost predicate WritesPart(w: Charbuf, w': Charbuf, out: seq<Byte>, ok: bool, p: Pdu) {
    && w'.buf.Some? && (ok <==> w'.solong >= 0) && w.solong >= 0
    && (!ok ==> w'.sz == 0 && w'.solong == -1 && out == [])
    && (ok ==>
          && w'.sz == w.sz && w'.solong == w.solong + |out| && w'.solong <= w'.sz == |p|
          && |w'.buf.value| == w'.sz && (w'.buf.value == p || w'.buf.value == Frame(p))
          && (w'.solong > 0 ==> w'.buf.value == Frame(p))
          && out == Frame(p)[w.solong..w.solong + |out|])
  }

  /** Writing bytes k..k+n of `f` after its first k bytes stays within a + f. */
  lemma Glue(a: seq<Byte>, f: seq<Byte>, wire: seq<Byte>, k: nat, n: nat)
    requires wire <= a + f && |wire| == |a| + k && k + n <= |f|
    ensures wire + f[k..k + n] <= a + f
  {
  }

  function Wrote(s: State, io: Io): State
    requires WriteFits(s.w, io)
  {
    var (w, out, ok) := WritePdu(s.w, io);
    s.(w := w, wire := s.wire + out, wdead := !ok)
  }

  lemma PartKeeps(s: State, w: Charbuf, out: seq<Byte>, ok: bool)
    requires SenderInv(s) && !s.wdead && s.w.buf.Some? && s.w.solong >= 0
    requires WritesPart(s.w, w, out, ok, s.sent[|s.sent| - 1])
    ensures SenderInv(s.(w := w, wire := s.wire + out, wdead := !ok))
  {
    var p, before := s.sent[|s.sent| - 1], s.sent[..|s.sent| - 1];
    if ok {
      Glue(All(before), Frame(p), s.wire, s.w.solong, |out|);
    } else {
      assert s.wire + out == s.wire;
    }
  }

  lemma WriteKeeps(s: State, io: Io)
    requires SenderInv(s) && !s.wdead && s.w.buf.Some? && WriteFits(s.w, io)
    ensures SenderInv(Wrote(s, io))
  {
    WriteSpec(s.w, io, s.sent[|s.sent| - 1]);
    var (w, out, ok) := WritePdu(s.w, io);
    PartKeeps(s, w, out, ok);
  }

  function Took(s: State, p: Pdu): State {
    s.(w := Charbuf(Some(p), |p|, 0), sent := s.sent + [p])
  }

  lemma TakeKeeps(s: State, p: Pdu)
    requires SenderInv(s) && !s.wdead && s.w.buf.None?
    ensures SenderInv(Took(s, p))
  {
    var t := Took(s, p);
    assert t.sent[..|t.sent| - 1] == s.sent;
    AllPrefix(t.sent, |s.sent|);
    forall i | 0 <= i < |t.results| && t.results[i] ensures |All(t.sent[..i + 1])| <= |t.wire| {
      assert t.sent[..i + 1] == s.sent[..i + 1];
    }
  }

  lemma EndKeeps(s: State)
    requires SenderInv(s) && Enabled(s, SendEnd)
    ensures SenderInv(Next(s, SendEnd))
  {
    var t := Next(s, SendEnd);
    assert s.sent[..|s.sent|] == s.sent;
    AllUpTo(s.sent, |s.sent| - 1);
    forall i | 0 <= i < |t.results| && t.results[i] ensures |All(t.sent[..i + 1])| <= |t.wire| {
      if i == |s.results| {
        assert s.sent[..i + 1] == s.sent;
      }
    }
    if !s.wdead {
      assert |s.wire| == |All(s.sent)|;
    }
  }

  /** What stands on the wire at offset k of PDU number g. */
  lemma WireAt(wire: seq<Byte>, sent: seq<Pdu>, g: nat, k: nat, n: nat)
    requires wire <= All(sent) && g < |sent| && k + n <= |sent[g]| && |All(sent[..g])| + k + n <= |wire|
    ensures wire[|All(sent[..g])| + k..][..n] == Frame(sent[g])[k..k + n]
  {
    AllUpTo(sent, g);
    Window(wire, All(sent), All(sent[..g]), Frame(sent[g]), k, n);
  }

  lemma Window(wire: seq<Byte>, all: seq<Byte>, a: seq<Byte>, f: seq<Byte>, k: nat, n: nat)
    requires wire <= all && a + f <= all && k + n <= |f| && |a| + k + n <= |wire|
    ensures wire[|a| + k..][..n] == f[k..k + n]
  {
  }

  /** With unread bytes on the wire there is a PDU they belong to. */
  lemma MoreToRead(wire: seq<Byte>, sent: seq<Pdu>, g: nat)
    requires wire <= All(sent) && g <= |sent| && |All(sent[..g])| < |wire|
    ensures g < |sent|
  {
    assert sent[..|sent|] == sent;
  }

  /** The length read from the wire is the length of the next PDU. */
  lemma HeaderSpec(s: State)
    requires SenderInv(s) && ReceiverInv(s) && !s.rdead && s.r.buf.None? && s.pos + 4 <= |s.wire|
    ensures |s.got| < |s.sent| && FromBE(s.wire[s.pos..][..4]) == |s.sent[|s.got|]|
    ensures s.wire[s.pos..][..4] == Frame(s.sent[|s.got|])[..4]
  {
    var g := |s.got|;
    MoreToRead(s.wire, s.sent, g);
    WireAt(s.wire, s.sent, g, 0, 4);
    FrameSize(s.sent[g]);
  }

  /** The read buffer after the body part of readpdu. */
  lemma Join(f: seq<Byte>, k: nat, n: nat)
    requires k + n <= |f|
    ensures f[..k] + f[k..k + n] == f[..k + n]
  {
  }

  lemma BodySpec(s: State, r: Charbuf, pos: nat, n: nat)
    requires s.wire <= All(s.sent) && |s.got| < |s.sent| && pos + n <= |s.wire|
    requires r.buf.Some? && r.sz == |s.sent[|s.got|]| && 4 <= r.solong && r.solong + n <= r.sz
    requires r.buf.value == Frame(s.sent[|s.got|])[..r.solong] && |All(s.sent[..|s.got|])| + r.solong == pos
    ensures r.buf.value + s.wire[pos..][..n] == Frame(s.sent[|s.got|])[..r.solong + n]
  {
    WireAt(s.wire, s.sent, |s.got|, r.solong, n);
    Join(Frame(s.sent[|s.got|]), r.solong, n);
  }

  /** The receiver's fields alone, with `read` bytes of the next PDU collected. */
  ghost predicate Collecting(s: State, r: Charbuf, pos: nat) {
    && pos <= |s.wire| && |s.got| < |s.sent| && r.buf.Some?
    && r.sz == |s.sent[|s.got|]| && 4 <= r.solong <= r.sz
    && r.buf.value == Frame(s.sent[|s.got|])[..r.solong]
    && |All(s.sent[..|s.got|])| + r.solong == pos
  }

  lemma BodyKeeps(s: State, r: Charbuf, pos: nat, body: Io)
    requires SenderInv(s) && Collecting(s, r, pos)
    requires body.Moved? ==> pos + body.n <= |s.wire| && r.solong + body.n <= r.sz
    ensures var (r', n, ok) := ReadBody(r, s.wire[pos..], 0, body);
            pos + n <= |s.wire| && (ok ==> Collecting(s, r', pos + n))
  {
    if body.Moved? {
      BodySpec(s, r, pos, body.n);
    }
  }

  lemma ReadFirst(s: State, body: Io)
    requires SenderInv(s) && ReceiverInv(s) && !s.rdead && s.r.buf.None?
    requires s.pos <= |s.wire| && ReadFits(s.r, s.wire[s.pos..], Moved(4), body)
    ensures var (r, n, ok) := ReadPdu(s.r, s.wire[s.pos..], Moved(4), body);
            s.pos + n <= |s.wire| && (ok ==> Collecting(s, r, s.pos + n))
  {
    var next := s.wire[s.pos..];
    HeaderSpec(s);
    var r := Charbuf(Some(next[..4]), FromBE(next[..4]), 4);
    assert next[4..] == s.wire[s.pos + 4..];
    BodyKeeps(s, r, s.pos + 4, body);
  }

  lemma ReadMore(s: State, head: Io, body: Io)
    requires SenderInv(s) && ReceiverInv(s) && !s.rdead && s.r.buf.Some?
    requires s.pos <= |s.wire| && ReadFits(s.r, s.wire[s.pos..], head, body)
    ensures var (r, n, ok) := ReadPdu(s.r, s.wire[s.pos..], head, body);
            s.pos + n <= |s.wire| && (ok ==> Collecting(s, r, s.pos + n))
  {
    BodyKeeps(s, s.r, s.pos, body);
  }

  lemma ReadSpec(s: State, head: Io, body: Io)
    requires Inv(s) && Enabled(s, ReadReady(head, body, false))
    ensures var (r, n, ok) := ReadPdu(s.r, s.wire[s.pos..], head, body);
            s.pos + n <= |s.wire| && (ok ==> Collecting(s, r, s.pos + n))
  {
    if s.r.buf.Some? {
      ReadMore(s, head, body);
    } else if head == Moved(4) {
      ReadFirst(s, body);
    }
  }

  lemma CollectedInv(s: State, r: Charbuf, pos: nat, ok: bool)
    requires ReceiverInv(s) && !s.rdead && pos <= |s.wire| && (ok ==> Collecting(s, r, pos))
    ensures ReceiverInv(s.(r := r, pos := pos, rdead := !ok))
  {
  }

  lemma CollectKeeps(s: State, head: Io, body: Io)
    requires Inv(s) && Enabled(s, ReadReady(head, body, false))
    ensures ReceiverInv(Collect(s, head, body))
  {
    if s.r.buf.None? || s.r.solong < s.r.sz {
      ReadSpec(s, head, body);
      var (r, n, ok) := ReadPdu(s.r, s.wire[s.pos..], head, body);
      CollectedInv(s, r, s.pos + n, ok);
    }
  }

  lemma OfferKeeps(s: State, accept: bool)
    requires ReceiverInv(s) && (s.r.buf.Some? && s.r.sz == s.r.solong ==> !s.rdead)
    ensures ReceiverInv(Offer(s, accept))
  {
    if s.r.buf.Some? && s.r.sz == s.r.solong && accept {
      TakenKeeps(s, Frame(s.sent[|s.got|]));
    }
  }

  lemma TakenKeeps(s: State, f: seq<Byte>)
    requires ReceiverInv(s) && !s.rdead && s.r.buf.Some? && s.r.sz == s.r.solong && f == Frame(s.sent[|s.got|])
    ensures s.r.buf.value == f && ReceiverInv(s.(got := s.got + [f], r := IDLE))
  {
    AllUpTo(s.sent, |s.got|);
    assert f[..|f|] == f;
  }

  /** A dead connection has no complete PDU left to offer. */
  lemma DeadOffersNothing(s: State, head: Io, body: Io)
    requires Inv(s) && Enabled(s, ReadReady(head, body, false))
    ensures var t := Collect(s, head, body);
            t.r.buf.Some? && t.r.sz == t.r.solong ==> !t.rdead
  {
  }

  lemma ReadLeavesSender(s: State, head: Io, body: Io, accept: bool)
    requires SenderInv(s) && Enabled(s, ReadReady(head, body, accept))
    ensures SenderInv(Next(s, ReadReady(head, body, accept)))
  {
    SameSender(s, Collect(s, head, body));
    SameSender(Collect(s, head, body), Next(s, ReadReady(head, body, accept)));
  }

  lemma ReadKeeps(s: State, head: Io, body: Io, accept: bool)
    requires Inv(s) && Enabled(s, ReadReady(head, body, accept))
    ensures Inv(Next(s, ReadReady(head, body, accept)))
  {
    CollectKeeps(s, head, body);
    DeadOffersNothing(s, head, body);
    OfferKeeps(Collect(s, head, body), accept);
    ReadLeavesSender(s, head, body, accept);
  }

  lemma SendStartKeeps(s: State, p: Pdu, io: Io)
    requires Inv(s) && Enabled(s, SendStart(p, io))
    ensures Inv(Next(s, SendStart(p, io)))
  {
    TakeKeeps(s, p);
    WriteKeeps(Took(s, p), io);
    ReceiverFrame(s, Next(s, SendStart(p, io)));
  }

  lemma WriteReadyKeeps(s: State, io: Io)
    requires Inv(s) && Enabled(s, WriteReady(io))
    ensures Inv(Next(s, WriteReady(io)))
  {
    if s.w.sz != 0 {
      WriteKeeps(s, io);
      ReceiverFrame(s, Wrote(s, io));
    }
  }

  lemma SendEndKeeps(s: State)
    requires Inv(s) && Enabled(s, SendEnd)
    ensures Inv(Next(s, SendEnd))
  {
    EndKeeps(s);
    ReceiverFrame(s, Next(s, SendEnd));
  }

  lemma DeathKeeps(s: State)
    requires Inv(s)
    ensures Inv(s.(wdead := true))
  {
  }

  lemma StepKeeps(s: State, step: Step)
    requires Inv(s) && Enabled(s, step)
    ensures Inv(Next(s, step))
  {
    match step
    case SendStart(p, io) => SendStartKeeps(s, p, io);
    case WriteReady(io) => WriteReadyKeeps(s, io);
    case SendEnd => SendEndKeeps(s);
    case SenderDies => DeathKeeps(s);
    case ReadReady(head, body, accept) => ReadKeeps(s, head, body, accept);
  }

  lemma SameSender(s: State, t: State)
    requires SenderInv(s) && t.wdead == s.wdead && t.w == s.w && t.sent == s.sent && t.results == s.results && t.wire == s.wire
    ensures SenderInv(t)
  {
  }

  // ------------------------------------------------------------------------- runs

  ghost predicate IsRun(run: seq<State>, steps: seq<Step>) {
    && |run| == |steps| + 1 && run[0] == OPEN
    && forall i :: 0 <= i < |steps| ==> Enabled(run[i], steps[i]) && run[i + 1] == Next(run[i], steps[i])
  }

  lemma {:induction false} RunInv(run: seq<State>, steps: seq<Step>, i: nat)
    requires IsRun(run, steps) && i < |run|
    ensures Inv(run[i])
  {
    if i > 0 {
      RunInv(run, steps, i - 1);
      StepKeeps(run[i - 1], steps[i - 1]);
    }
  }

  /** However writes and reads are split, whoever competes, whatever the consumer
      refuses and wherever the connection fails: the wire is whole PDUs in the order
      of the sends and at most a part of the last one, and the consumer took a prefix
      of them, whole, in order and each once. */
  lemma WireIsWholePdus(run: seq<State>, steps: seq<Step>, i: nat)
    requires IsRun(run, steps) && i < |run|
    ensures var s := run[i];
            && s.wire <= All(s.sent)
            && (s.sent != [] ==> All(s.sent[..|s.sent| - 1]) <= s.wire)
            && |s.got| <= |s.sent|
            && (forall k :: 0 <= k < |s.got| ==> s.got[k] == Frame(s.sent[k]))
  {
    RunInv(run, steps, i);
    var s := run[i];
    if s.sent != [] {
      AllPrefix(s.sent, |s.sent| - 1);
      PrefixOrder(All(s.sent[..|s.sent| - 1]), s.wire, All(s.sent));
    }
  }

  lemma PrefixOrder(a: seq<Byte>, b: seq<Byte>, all: seq<Byte>)
    requires a <= all && b <= all && |a| <= |b|
    ensures a <= b
  {
  }

  lemma Cut(wire: seq<Byte>, all: seq<Byte>, a: seq<Byte>, f: seq<Byte>, k: nat)
    requires wire <= all && a + f <= all && k <= |f| && |a| + k <= |wire|
    ensures wire[..|a| + k] == a + f[..k]
  {
  }

  /** Nothing is lost on the way: while the receiver lives, every byte it has read is
      in a PDU its consumer took or in the read buffer. */
  lemma NothingLost(run: seq<State>, steps: seq<Step>, i: nat)
    requires IsRun(run, steps) && i < |run| && !run[i].rdead
    ensures var s := run[i];
            && s.pos <= |s.wire| && |s.got| <= |s.sent|
            && s.wire[..s.pos] == All(s.sent[..|s.got|]) + (if s.r.buf.Some? then s.r.buf.value else [])
  {
    RunInv(run, steps, i);
    var s := run[i];
    var g := |s.got|;
    AllPrefix(s.sent, g);
    if s.r.buf.Some? {
      AllUpTo(s.sent, g);
      Cut(s.wire, All(s.sent), All(s.sent[..g]), Frame(s.sent[g]), s.r.solong);
    } else {
      assert All(s.sent[..g]) + [] == All(s.sent[..g]);
      Cut(s.wire, All(s.sent), All(s.sent[..g]), [], 0);
    }
  }

  /** A send that returned true has all its bytes on the wire. */
  lemma TrueMeansSent(run: seq<State>, steps: seq<Step>, i: nat, k: nat)
    requires IsRun(run, steps) && i < |run| && k < |run[i].results| && run[i].results[k]
    ensures k < |run[i].sent| && All(run[i].sent[..k + 1]) <= run[i].wire
  {
    RunInv(run, steps, i);
    var s := run[i];
    AllPrefix(s.sent, k + 1);
    PrefixOrder(All(s.sent[..k + 1]), s.wire, All(s.sent));
  }

  // ------------------------------------------------------- the connection object

  class Connection {
    var dead: bool
    var wbuf: Option<seq<Byte>>
    var wsz: int
    var wsolong: int
    var rbuf: Option<seq<Byte>>
    var rsz: int
    var rsolong: int

    ghost function W(): Charbuf reads this { Charbuf(wbuf, wsz, wsolong) }
    ghost function R(): Charbuf reads this { Charbuf(rbuf, rsz, rsolong) }

    constructor ()
      ensures !dead && W() == IDLE && R() == IDLE
    {
      dead, wbuf, wsz, wsolong, rbuf, rsz, rsolong := false, None, 0, 0, None, 0, 0;
    }

    method WriteSome(io: Io) returns (out: seq<Byte>, ok: bool)
      requires WriteFits(W(), io)
      modifies this`wbuf, this`wsz, this`wsolong
      ensures (W(), out, ok) == WritePdu(old(W()), io)
    {
      out, ok := [], true;
      if wsolong == wsz {
        return;
      }
      if wsolong == 0 {
        wbuf := Some(BE(wsz, 4) + wbuf.value[4..]);
      }
      match io
      case Moved(n) =>
        out := wbuf.value[wsolong..wsolong + n];
        wsolong := wsolong + n;
      case Again =>
      case Failed =>
        wsolong, wsz, ok := -1, 0, false;
    }

    /** The first part of send, once the write buffer is free. */
    method StartSend(p: Pdu, io: Io) returns (out: seq<Byte>)
      requires !dead && W() == IDLE && WriteFits(Charbuf(Some(p), |p|, 0), io)
      modifies this
      ensures R() == old(R())
      ensures (W(), out, !dead) == WritePdu(Charbuf(Some(p), |p|, 0), io)
    {
      wbuf, wsz, wsolong := Some(p), |p|, 0;
      var ok;
      out, ok := WriteSome(io);
      if !ok {
        dead := true;
      }
    }

    method WriteCallback(io: Io) returns (out: seq<Byte>)
      requires !dead && (wsz != 0 ==> WriteFits(W(), io))
      modifies this
      ensures R() == old(R())
      ensures if old(wsz) == 0 then W() == old(W()) && !dead && out == []
              else (W(), out, !dead) == WritePdu(old(W()), io)
    {
      out := [];
      if wsz == 0 {
        return;
      }
      var ok;
      out, ok := WriteSome(io);
      if !ok {
        dead := true;
      }
    }

    /** The last part of send: true exactly when the connection lives and every byte
        of the PDU has been written. */
    method EndSend() returns (ret: bool)
      requires wbuf.Some?
      modifies this`wbuf, this`wsz, this`wsolong
      ensures W() == IDLE && ret == (!old(dead) && old(wsolong) == old(wsz))
    {
      ret := !dead && wsolong == wsz;
      wsolong, wsz, wbuf := 0, 0, None;
    }

    method ReadSome(next: seq<Byte>, head: Io, body: Io) returns (taken: nat, ok: bool)
      requires ReadFits(R(), next, head, body) && (rsz != 0 ==> rbuf.Some?)
      modifies this`rbuf, this`rsz, this`rsolong
      ensures (R(), taken, ok) == ReadPdu(old(R()), next, head, body)
    {
      taken, ok := 0, true;
      var rest := next;
      if rsz == 0 {
        if head != Moved(4) {
          return if head.Moved? then head.n else 0, false;
        }
        taken := 4;
        var sz := FromBE(next[..4]);
        if sz > MAX_PDU {
          return 4, false;
        }
        rbuf, rsz, rsolong := Some(next[..4]), sz, 4;
        rest := next[4..];
      }
      match body
      case Moved(n) =>
        rbuf := Some(rbuf.value + rest[..n]);
        rsolong := rsolong + n;
        taken := taken + n;
      case Again =>
      case Failed =>
        rbuf, rsz, rsolong, ok := None, 0, 0, false;
    }

    /** read_cb: collect, then offer a complete PDU; a refused one stays. */
    method ReadCallback(next: seq<Byte>, head: Io, body: Io, accept: bool) returns (taken: nat, pdu: Option<seq<Byte>>)
      requires !dead && ReadFits(R(), next, head, body) && (rsz != 0 <==> rbuf.Some?)
      modifies this
      ensures W() == old(W())
      ensures var (r, n, ok) := if old(rbuf).None? || old(rsolong) < old(rsz) then ReadPdu(old(R()), next, head, body)
                                else (old(R()), 0, true);
              && taken == n && dead == !ok
              && if r.buf.Some? && r.sz == r.solong && accept then pdu == r.buf && R() == IDLE
                 else pdu == None && R() == r
    {
      taken, pdu := 0, None;
      var ok := true;
      if rbuf.None? || rsolong < rsz {
        taken, ok := ReadSome(next, head, body);
      }
      if !ok {
        dead := true;
      }
      if rbuf.Some? && rsz == rsolong && accept {
        pdu := rbuf;
        rbuf, rsz, rsolong := None, 0, 0;
      }
    }
  }
}
