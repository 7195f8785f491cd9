/** References to the client's connections.  `chan_` and each running call1 frame
    hold one reference each; get_refconn trades them under chan_m_, while frames end
    and connections die at any moment.  A pointer whose reference was given up but
    which has not been overwritten yet is stale. */
module RefCount {

  /** `deletes` counts how often `delete this` was reached. */
  datatype Conn = Conn(refno: int, dead: bool, deletes: nat)

  datatype Ptr = Null | To(c: nat) | Stale(was: nat)

  /** Where the holder of chan_m_ stands inside get_refconn; `Closing` and `Gone`
      belong to the client's destructor. */
  datatype Phase = Checking | Dropping | Connecting | Releasing | Acquiring
  datatype Stage = Free | Held(owner: nat, at: Phase) | Closing | Gone

  datatype Client = Client(conns: seq<Conn>, chan: Ptr, ch: map<nat, Ptr>, stage: Stage)

  function Start(): Client { Client([], Null, map[], Free) }

  function Incref(x: Conn): Conn { x.(refno := x.refno + 1) }

  function Decref(x: Conn): Conn {
    if x.refno == 1 && x.dead then Conn(0, true, x.deletes + 1) else x.(refno := x.refno - 1)
  }

  function On(conns: seq<Conn>, p: Ptr, f: Conn -> Conn): seq<Conn> {
    if p.To? && p.c < |conns| then conns[p.c := f(conns[p.c])] else conns
  }

  function GivenUp(p: Ptr): Ptr { if p.To? then Stale(p.c) else p }

  datatype Step =
    | Begin(f: nat)
    | Enter(f: nat)
    | Check
    | Drop
    | Connect(up: bool)
    | Release
    | Acquire
    | Die(c: nat)
    | End(f: nat)
    | CloseAll
    | DropLast

  predicate At(s: Client, at: Phase) { s.stage.Held? && s.stage.at == at && s.stage.owner in s.ch }

  /** `Begin` starts a call1, `End` is its last decref.  The destructor runs only
      when no call is left. */
  predicate Enabled(s: Client, step: Step) {
    match step
    case Begin(f) => f !in s.ch && !s.stage.Closing? && !s.stage.Gone?
    case Enter(f) => f in s.ch && s.stage == Free
    case Check => At(s, Checking)
    case Drop => At(s, Dropping)
    case Connect(up) => At(s, Connecting)
    case Release => At(s, Releasing)
    case Acquire => At(s, Acquiring)
    case Die(c) => c < |s.conns| && s.conns[c].deletes == 0
    case End(f) => f in s.ch && !(s.stage.Held? && s.stage.owner == f)
    case CloseAll => s.stage == Free && s.ch == map[]
    case DropLast => s.stage == Closing
  }

  predicate Alive(conns: seq<Conn>, p: Ptr) { p.To? && p.c < |conns| && !conns[p.c].dead }

  function Kill(x: Conn): Conn { x.(dead := true) }

  function Next(s: Client, step: Step): Client
    requires Enabled(s, step)
  {
    match step
    case Begin(f) => s.(ch := s.ch[f := Null])
    case Enter(f) => s.(stage := Held(f, Checking))
    case Check => s.(stage := s.stage.(at := if Alive(s.conns, s.chan) then Releasing else Dropping))
    case Drop =>
      s.(conns := On(s.conns, s.chan, Decref), chan := GivenUp(s.chan), stage := s.stage.(at := Connecting))
    case Connect(up) =>
      if up
      then s.(conns := s.conns + [Conn(1, false, 0)], chan := To(|s.conns|), stage := s.stage.(at := Releasing))
      else s.(chan := Null, stage := s.stage.(at := Releasing))
    case Release =>
      var f := s.stage.owner;
      if s.chan == Null then s.(stage := Free)
      else s.(conns := On(s.conns, s.ch[f], Decref), ch := s.ch[f := GivenUp(s.ch[f])],
              stage := s.stage.(at := Acquiring))
    case Acquire => s.(conns := On(s.conns, s.chan, Incref), ch := s.ch[s.stage.owner := s.chan], stage := Free)
    case Die(c) => s.(conns := s.conns[c := Kill(s.conns[c])])
    case End(f) => s.(conns := On(s.conns, s.ch[f], Decref), ch := s.ch - {f})
    case CloseAll => s.(conns := On(s.conns, s.chan, Kill), stage := Closing)
    case DropLast => s.(conns := On(s.conns, s.chan, Decref), chan := Null, stage := Gone)
  }

  // -------------------------------------------------------------------- invariant

  function FramesOn(ch: map<nat, Ptr>, c: nat): set<nat> { set f | f in ch && ch[f] == To(c) }

  function Holders(chan: Ptr, ch: map<nat, Ptr>, c: nat): nat {
    (if chan == To(c) then 1 else 0) + |FramesOn(ch, c)|
  }

  /** The count is exact; only the connection in chan_ can be alive; the object is
      deleted once, and exactly when nobody holds it any more. */
  ghost predicate ConnOk(x: Conn, chan: Ptr, ch: map<nat, Ptr>, c: nat) {
    && x.refno == Holders(chan, ch, c)
    && x.deletes == (if x.refno == 0 then 1 else 0)
    && (!x.dead ==> chan == To(c))
  }

  ghost predicate CountInv(conns: seq<Conn>, chan: Ptr, ch: map<nat, Ptr>) {
    forall c :: 0 <= c < |conns| ==> ConnOk(conns[c], chan, ch, c)
  }

  predicate Sound(p: Ptr, n: nat) { p.To? ==> p.c < n }

  ghost predicate FramesOk(ch: map<nat, Ptr>, n: nat, stage: Stage) {
    forall f :: f in ch ==> Sound(ch[f], n) && (ch[f].Stale? ==> stage == Held(f, Acquiring))
  }

  /** What the holder of chan_m_ knows at each point. */
  ghost predicate StageOk(s: Client) {
    && Sound(s.chan, |s.conns|)
    && (s.chan.Stale? ==> s.stage.Held? && s.stage.at == Connecting)
    && match s.stage
       case Free => true
       case Held(f, at) =>
         && f in s.ch
         && (at == Dropping ==> !Alive(s.conns, s.chan))
         && (at == Connecting ==> !s.chan.To?)
         && (at == Acquiring ==> s.chan.To? && !s.ch[f].To?)
       case Closing => !Alive(s.conns, s.chan) && s.ch == map[]
       case Gone => s.chan == Null && s.ch == map[]
  }

  ghost predicate Inv(s: Client) {
    CountInv(s.conns, s.chan, s.ch) && FramesOk(s.ch, |s.conns|, s.stage) && StageOk(s)
  }

  // ----------------------------------------------------------------- preservation

  /** The frames on `c` are those other than `f`, and `f` if it points there. */
  lemma FramesSplit(ch: map<nat, Ptr>, f: nat, c: nat)
    requires f in ch
    ensures |FramesOn(ch, c)| == |FramesOn(ch - {f}, c)| + (if ch[f] == To(c) then 1 else 0)
  {
    var rest := FramesOn(ch - {f}, c);
    if ch[f] == To(c) {
      assert FramesOn(ch, c) == rest + {f};
    } else {
      assert FramesOn(ch, c) == rest;
    }
  }

  lemma FramesUpdate(ch: map<nat, Ptr>, f: nat, p: Ptr, c: nat)
    ensures |FramesOn(ch[f := p], c)| == |FramesOn(ch - {f}, c)| + (if p == To(c) then 1 else 0)
  {
    assert ch[f := p] - {f} == ch - {f};
    FramesSplit(ch[f := p], f, c);
  }

  /** Pointing `f` at `p` instead moves one reference. */
  lemma FrameMoves(chan: Ptr, ch: map<nat, Ptr>, f: nat, p: Ptr, c: nat)
    requires f in ch
    ensures Holders(chan, ch[f := p], c) ==
            Holders(chan, ch, c) - (if ch[f] == To(c) then 1 else 0) + (if p == To(c) then 1 else 0)
  {
    FramesSplit(ch, f, c);
    FramesUpdate(ch, f, p, c);
  }

  lemma FrameEnds(chan: Ptr, ch: map<nat, Ptr>, f: nat, c: nat)
    requires f in ch
    ensures Holders(chan, ch - {f}, c) == Holders(chan, ch, c) - (if ch[f] == To(c) then 1 else 0)
  {
    FramesSplit(ch, f, c);
  }

  lemma FrameBegins(chan: Ptr, ch: map<nat, Ptr>, f: nat, c: nat)
    requires f !in ch
    ensures Holders(chan, ch[f := Null], c) == Holders(chan, ch, c)
  {
    assert FramesOn(ch[f := Null], c) == FramesOn(ch, c);
  }

  /** Somebody who holds a reference gives it up. */
  lemma DecrefKeeps(conns: seq<Conn>, chan: Ptr, ch: map<nat, Ptr>, p: Ptr, chan': Ptr, ch': map<nat, Ptr>)
    requires CountInv(conns, chan, ch) && Sound(p, |conns|)
    requires forall c: nat :: Holders(chan', ch', c) == Holders(chan, ch, c) - (if p == To(c) then 1 else 0)
    requires chan' == chan || !Alive(conns, chan)
    ensures CountInv(On(conns, p, Decref), chan', ch')
  {
  }

  lemma DropKeeps(s: Client)
    requires Inv(s) && Enabled(s, Drop)
    ensures Inv(Next(s, Drop))
  {
  }

  lemma ConnectKeeps(s: Client, up: bool)
    requires Inv(s) && Enabled(s, Connect(up))
    ensures Inv(Next(s, Connect(up)))
  {
  }

  lemma ReleaseKeeps(s: Client)
    requires Inv(s) && Enabled(s, Release)
    ensures Inv(Next(s, Release))
  {
    var f := s.stage.owner;
    forall c: nat {
      FrameMoves(s.chan, s.ch, f, GivenUp(s.ch[f]), c);
    }
    DecrefKeeps(s.conns, s.chan, s.ch, s.ch[f], s.chan, s.ch[f := GivenUp(s.ch[f])]);
  }

  lemma AcquireKeeps(s: Client)
    requires Inv(s) && Enabled(s, Acquire)
    ensures Inv(Next(s, Acquire))
  {
    var t := Next(s, Acquire);
    forall c | 0 <= c < |t.conns| ensures ConnOk(t.conns[c], t.chan, t.ch, c) {
      FrameMoves(s.chan, s.ch, s.stage.owner, s.chan, c);
      assert ConnOk(s.conns[c], s.chan, s.ch, c);
    }
  }

  lemma EndKeeps(s: Client, f: nat)
    requires Inv(s) && Enabled(s, End(f))
    ensures Inv(Next(s, End(f)))
  {
    forall c: nat {
      FrameEnds(s.chan, s.ch, f, c);
    }
    DecrefKeeps(s.conns, s.chan, s.ch, s.ch[f], s.chan, s.ch - {f});
  }

  lemma BeginKeeps(s: Client, f: nat)
    requires Inv(s) && Enabled(s, Begin(f))
    ensures Inv(Next(s, Begin(f)))
  {
    forall c: nat {
      FrameBegins(s.chan, s.ch, f, c);
    }
    var t := Next(s, Begin(f));
    forall c | 0 <= c < |t.conns| ensures ConnOk(t.conns[c], t.chan, t.ch, c) {
      assert ConnOk(s.conns[c], s.chan, s.ch, c);
    }
  }

  lemma DropLastKeeps(s: Client)
    requires Inv(s) && Enabled(s, DropLast)
    ensures Inv(Next(s, DropLast))
  {
  }

  lemma StepKeeps(s: Client, step: Step)
    requires Inv(s) && Enabled(s, step)
    ensures Inv(Next(s, step))
  {
    match step
    case Begin(f) => BeginKeeps(s, f);
    case Drop => DropKeeps(s);
    case Connect(up) => ConnectKeeps(s, up);
    case Release => ReleaseKeeps(s);
    case Acquire => AcquireKeeps(s);
    case End(f) => EndKeeps(s, f);
    case DropLast => DropLastKeeps(s);
    case _ =>
  }

  // ------------------------------------------------------------------------- runs

  ghost predicate IsRun(run: seq<Client>, steps: seq<Step>) {
    && |run| == |steps| + 1 && run[0] == Start()
    && forall i :: 0 <= i < |steps| ==> Enabled(run[i], steps[i]) && run[i + 1] == Next(run[i], steps[i])
  }

  lemma {:induction false} RunInv(run: seq<Client>, steps: seq<Step>, i: nat)
    requires IsRun(run, steps) && i < |run|
    ensures Inv(run[i])
  {
    if i > 0 {
      RunInv(run, steps, i - 1);
      StepKeeps(run[i - 1], steps[i - 1]);
    }
  }

  /** In every run the count of each connection is the number of its holders, a live
      connection is counted, and it has been deleted exactly once if nobody holds it
      and never otherwise. */
  lemma CountsAreExact(run: seq<Client>, steps: seq<Step>, i: nat, c: nat)
    requires IsRun(run, steps) && i < |run| && c < |run[i].conns|
    ensures var s := run[i];
            && s.conns[c].refno == Holders(s.chan, s.ch, c)
            && (!s.conns[c].dead ==> s.conns[c].refno > 0)
            && s.conns[c].deletes == (if Holders(s.chan, s.ch, c) == 0 then 1 else 0)
  {
    RunInv(run, steps, i);
    assert ConnOk(run[i].conns[c], run[i].chan, run[i].ch, c);
  }

  /** Nobody can reach a deleted connection: neither chan_ nor any frame, so no
      isdead, send, incref or decref touches one. */
  lemma NoUseAfterDelete(run: seq<Client>, steps: seq<Step>, i: nat, p: Ptr)
    requires IsRun(run, steps) && i < |run| && p.To?
    requires p == run[i].chan || exists f :: f in run[i].ch && run[i].ch[f] == p
    ensures p.c < |run[i].conns| && run[i].conns[p.c].deletes == 0
  {
    var s := run[i];
    RunInv(run, steps, i);
    if p != s.chan {
      var f :| f in s.ch && s.ch[f] == p;
      assert Sound(s.ch[f], |s.conns|);
      FramesSplit(s.ch, f, p.c);
    }
    assert ConnOk(s.conns[p.c], s.chan, s.ch, p.c);
  }

  /** After the client's destructor every connection it ever made is deleted. */
  lemma NothingLeaks(run: seq<Client>, steps: seq<Step>, i: nat, c: nat)
    requires IsRun(run, steps) && i < |run| && run[i].stage == Gone && c < |run[i].conns|
    ensures run[i].conns[c] == Conn(0, true, 1)
  {
    RunInv(run, steps, i);
    assert ConnOk(run[i].conns[c], run[i].chan, run[i].ch, c);
    assert FramesOn(run[i].ch, c) == {};
  }

  ghost predicate Linked(run: seq<Client>, steps: seq<Step>) {
    && |run| == |steps| + 1
    && forall i :: 0 <= i < |steps| ==> Enabled(run[i], steps[i]) && run[i + 1] == Next(run[i], steps[i])
  }

  /** The last two steps of get_refconn, with a channel. */
  lemma TakeChannel(s: Client, f: nat)
    requires s.stage == Held(f, Releasing) && f in s.ch && Alive(s.conns, s.chan)
    requires s.ch[f].To? ==> s.ch[f] == s.chan ==> s.conns[s.chan.c].refno > 1
    ensures Enabled(s, Release) && Enabled(Next(s, Release), Acquire)
    ensures var t := Next(Next(s, Release), Acquire);
            t.stage == Free && f in t.ch && t.ch[f] == t.chan == s.chan && Alive(t.conns, t.chan)
  {
  }

  lemma OwnReference(s: Client, f: nat)
    requires Inv(s) && f in s.ch && s.ch[f] == s.chan && s.chan.To?
    ensures s.conns[s.chan.c].refno > 1
  {
    assert ConnOk(s.conns[s.chan.c], s.chan, s.ch, s.chan.c);
    FramesSplit(s.ch, f, s.chan.c);
  }

  lemma KeepChannel(s: Client, f: nat) returns (run: seq<Client>, steps: seq<Step>)
    requires Inv(s) && s.stage == Free && f in s.ch && Alive(s.conns, s.chan)
    ensures Linked(run, steps) && run[0] == s
    ensures var t := run[|steps|];
            t.stage == Free && f in t.ch && t.ch[f] == t.chan == s.chan && Alive(t.conns, t.chan)
  {
    var a := Next(s, Enter(f));
    var b := Next(a, Check);
    if s.ch[f] == s.chan {
      OwnReference(s, f);
    }
    TakeChannel(b, f);
    run := [s, a, b, Next(b, Release), Next(Next(b, Release), Acquire)];
    steps := [Enter(f), Check, Release, Acquire];
  }

  lemma NewChannel(s: Client, f: nat) returns (run: seq<Client>, steps: seq<Step>)
    requires Inv(s) && s.stage == Free && f in s.ch && !Alive(s.conns, s.chan)
    ensures Linked(run, steps) && run[0] == s
    ensures var t := run[|steps|];
            t.stage == Free && f in t.ch && t.ch[f] == t.chan == To(|s.conns|) && Alive(t.conns, t.chan)
  {
    var a := Next(s, Enter(f));
    var b := Next(a, Check);
    var c := Next(b, Drop);
    var d := Next(c, Connect(true));
    assert f in s.ch && Sound(s.ch[f], |s.conns|);
    TakeChannel(d, f);
    run := [s, a, b, c, d, Next(d, Release), Next(Next(d, Release), Acquire)];
    steps := [Enter(f), Check, Drop, Connect(true), Release, Acquire];
  }

  /** get_refconn, undisturbed and able to connect, leaves the call with a reference to
      a live channel: the one there was, or a new one if that was dead or missing. */
  lemma GetRefconnDelivers(s: Client, f: nat) returns (run: seq<Client>, steps: seq<Step>)
    requires Inv(s) && s.stage == Free && f in s.ch
    ensures Linked(run, steps) && run[0] == s
    ensures var t := run[|steps|];
            && t.stage == Free && f in t.ch && t.ch[f] == t.chan && Alive(t.conns, t.chan)
            && t.chan == if Alive(s.conns, s.chan) then s.chan else To(|s.conns|)
  {
    if Alive(s.conns, s.chan) {
      run, steps := KeepChannel(s, f);
    } else {
      run, steps := NewChannel(s, f);
    }
  }

  // ------------------------------------------------------------------ the objects

  class Connection {
    var refno: int
    var dead: bool
    var deletes: nat

    ghost function State(): Conn reads this { Conn(refno, dead, deletes) }

    constructor ()
      ensures State() == Conn(1, false, 0)
    {
      refno, dead, deletes := 1, false, 0;
    }

    method IncrefConn()
      modifies this
      ensures State() == Incref(old(State()))
    {
      refno := refno + 1;
    }

    /** The count must not go below zero: a caller holds a reference. */
    method DecrefConn()
      requires refno > 0
      modifies this
      ensures State() == Decref(old(State()))
    {
      refno := refno - 1;
      assert refno >= 0;
      if refno == 0 {
        if dead {
          deletes := deletes + 1;
        }
      }
    }

    method CloseConn()
      modifies this
      ensures State() == Kill(old(State()))
    {
      if !dead {
        dead := true;
      }
    }
  }

  ghost predicate Usable(p: Connection?)
    reads p
  {
    p != null ==> p.refno > 0 && p.deletes == 0
  }

  /** chan_ and the exchange of references in get_refconn. */
  class Channel {
    var chan: Connection?

    constructor ()
      ensures chan == null
    {
      chan := null;
    }

    /** `up` says whether connecting succeeds.  A frame's own reference to the
        connection in chan_ comes on top of chan_'s. */
    method GetRefconn(ch: Connection?, up: bool) returns (r: Connection?)
      requires Usable(chan) && Usable(ch)
      requires ch != null && ch == chan ==> ch.refno >= 2
      modifies this, chan, ch
      ensures old(chan) != null && !old(chan.dead) ==> chan == old(chan)
      ensures old(chan) == null || old(chan.dead) ==> if up then chan != null && fresh(chan) else chan == null
      ensures r == if chan == null then ch else chan
      ensures chan != null && chan == old(chan) ==>
                chan.State() == (if ch == chan then old(chan.State()) else Incref(old(chan.State())))
      ensures chan != null && chan != old(chan) ==> chan.State() == Conn(2, false, 0)
      ensures old(chan) != null && old(chan) != chan && old(chan) != ch ==>
                old(chan).State() == Decref(old(chan.State()))
      ensures ch != null && ch != chan ==>
                ch.State() == (if chan == null && old(chan) != ch then old(ch.State())
                               else if chan != null && old(chan) == ch then Decref(Decref(old(ch.State())))
                               else Decref(old(ch.State())))
    {
      if chan == null || chan.dead {
        if chan != null {
          chan.DecrefConn();
        }
        if up {
          chan := new Connection();
        } else {
          chan := null;
        }
      }
      r := ch;
      if chan != null {
        if r != null {
          r.DecrefConn();
        }
        r := chan;
        r.IncrefConn();
      }
    }
  }
}
