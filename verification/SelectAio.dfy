/** The descriptor sets behind select(): which descriptors are watched, and the
    highest of them, which bounds the scan of the result. */
module SelectAio {

  datatype Flag = ReadOnly | WriteOnly | ReadWrite

  datatype Fds = Fds(r: set<nat>, w: set<nat>, high: nat)

  /** The highest member of `fds` that is at most `upTo`, or `other`. */
  function Highest(fds: set<nat>, upTo: nat, other: nat): nat {
    if upTo in fds then upTo else if upTo == 0 then other else Highest(fds, upTo - 1, other)
  }

  function Watch(s: Fds, fd: nat, flag: Flag): Fds {
    Fds(if flag.WriteOnly? then s.r else s.r + {fd},
        if flag.ReadOnly? then s.w else s.w + {fd},
        if s.high <= fd then fd else s.high)
  }

  function Unwatch(s: Fds, fd: nat, flag: Flag, pipe: nat): Fds {
    var r := if flag.WriteOnly? then s.r else s.r - {fd};
    var w := if flag.ReadOnly? then s.w else s.w - {fd};
    Fds(r, w, if fd !in r && fd !in w && fd == s.high then Highest(r + w, s.high, pipe) else s.high)
  }

  /** `high` is the largest watched descriptor. */
  ghost predicate Exact(s: Fds) {
    s.high in s.r + s.w && forall fd :: fd in s.r + s.w ==> fd <= s.high
  }

  lemma {:induction false} HighestSpec(fds: set<nat>, upTo: nat, other: nat)
    requires other in fds && other <= upTo
    ensures var h := Highest(fds, upTo, other);
            h in fds && h <= upTo && forall fd :: fd in fds && fd <= upTo ==> fd <= h
  {
    if upTo !in fds && upTo > 0 {
      HighestSpec(fds, upTo - 1, other);
    }
  }

  lemma UnwatchExact(s: Fds, fd: nat, flag: Flag, pipe: nat)
    requires Exact(s) && pipe in s.r && fd != pipe
    ensures Exact(Unwatch(s, fd, flag, pipe)) && pipe in Unwatch(s, fd, flag, pipe).r
  {
    var t := Unwatch(s, fd, flag, pipe);
    if fd !in t.r && fd !in t.w && fd == s.high {
      assert pipe in s.r + s.w && pipe in t.r + t.w;
      HighestSpec(t.r + t.w, s.high, pipe);
    } else {
      assert s.high in t.r + t.w;
    }
  }

  /** Watching and unwatching change membership of the one descriptor, in the sets the
      flag names. */
  lemma MembershipExactly(s: Fds, fd: nat, flag: Flag, pipe: nat, x: nat)
    ensures x in Watch(s, fd, flag).r <==> x in s.r || (x == fd && flag != WriteOnly)
    ensures x in Watch(s, fd, flag).w <==> x in s.w || (x == fd && flag != ReadOnly)
    ensures x in Unwatch(s, fd, flag, pipe).r <==> x in s.r && !(x == fd && flag != WriteOnly)
    ensures x in Unwatch(s, fd, flag, pipe).w <==> x in s.w && !(x == fd && flag != ReadOnly)
  {
  }

  datatype Op = DoWatch(fd: nat, flag: Flag) | DoUnwatch(fd: nat, flag: Flag)

  function Apply(pipe: nat, ops: seq<Op>): Fds {
    if ops == [] then Fds({pipe}, {}, pipe)
    else
      var s := Apply(pipe, ops[..|ops| - 1]);
      match ops[|ops| - 1]
      case DoWatch(fd, flag) => Watch(s, fd, flag)
      case DoUnwatch(fd, flag) => Unwatch(s, fd, flag, pipe)
  }

  /** After any operations that leave the pipe alone, `high` is exact. */
  lemma {:induction false} HighIsExact(pipe: nat, ops: seq<Op>)
    requires forall op :: op in ops && op.DoUnwatch? ==> op.fd != pipe
    ensures Exact(Apply(pipe, ops)) && pipe in Apply(pipe, ops).r
  {
    if ops != [] {
      HighIsExact(pipe, ops[..|ops| - 1]);
      var op := ops[|ops| - 1];
      assert op in ops;
      if op.DoUnwatch? {
        UnwatchExact(Apply(pipe, ops[..|ops| - 1]), op.fd, op.flag, pipe);
      }
    }
  }

  ghost predicate Increasing(q: seq<nat>) { forall i, j :: 0 <= i < j < |q| ==> q[i] < q[j] }

  class SelectAIO {
    const pipe: nat
    var rfds: set<nat>
    var wfds: set<nat>
    var high: nat
    var pipeBytes: nat

    ghost function State(): Fds reads this { Fds(rfds, wfds, high) }

    ghost predicate Valid() reads this { pipe in rfds && Exact(State()) }

    constructor (p: nat)
      ensures pipe == p && State() == Fds({p}, {}, p) && pipeBytes == 0 && Valid()
    {
      pipe, rfds, wfds, high, pipeBytes := p, {p}, {}, p, 0;
    }

    method WatchFd(fd: nat, flag: Flag)
      requires Valid()
      modifies this
      ensures Valid() && State() == Watch(old(State()), fd, flag) && pipeBytes == old(pipeBytes) + 1
      ensures rfds == if flag == WriteOnly then old(rfds) else old(rfds) + {fd}
      ensures wfds == if flag == ReadOnly then old(wfds) else old(wfds) + {fd}
    {
      if high <= fd {
        high := fd;
      }
      if flag == ReadOnly {
        rfds := rfds + {fd};
      } else if flag == WriteOnly {
        wfds := wfds + {fd};
      } else {
        rfds, wfds := rfds + {fd}, wfds + {fd};
      }
      pipeBytes := pipeBytes + 1;
    }

    /** The scan keeps the last descriptor it finds in either set. */
    method HighestWatched() returns (h: nat)
      ensures h == Highest(rfds + wfds, high, pipe)
    {
      h := pipe;
      var i := 0;
      while i <= high
        invariant 0 <= i <= high + 1
        invariant h == if i == 0 then pipe else Highest(rfds + wfds, i - 1, pipe)
      {
        if i in rfds {
          h := i;
        } else if i in wfds {
          h := i;
        }
        i := i + 1;
      }
    }

    method UnwatchFd(fd: nat, flag: Flag) returns (gone: bool)
      requires Valid() && fd != pipe
      modifies this
      ensures Valid() && State() == Unwatch(old(State()), fd, flag, pipe)
      ensures rfds == if flag == WriteOnly then old(rfds) else old(rfds) - {fd}
      ensures wfds == if flag == ReadOnly then old(wfds) else old(wfds) - {fd}
      ensures pipeBytes == old(pipeBytes) + (if flag == ReadWrite then 1 else 0)
      ensures gone <==> fd !in rfds && fd !in wfds
    {
      UnwatchExact(State(), fd, flag, pipe);
      if flag == ReadOnly {
        rfds := rfds - {fd};
      } else if flag == WriteOnly {
        wfds := wfds - {fd};
      } else {
        wfds, rfds := wfds - {fd}, rfds - {fd};
      }
      gone := fd !in rfds && fd !in wfds;
      if gone && fd == high {
        high := HighestWatched();
      }
      if flag == ReadWrite {
        pipeBytes := pipeBytes + 1;
      }
    }

    /** wait_ready copies both sets and the bound together before select. */
    method Copy() returns (c: Fds)
      requires Valid()
      ensures c == State() && Exact(c) && pipe in c.r
    {
      c := Fds(rfds, wfds, high);
    }

    /** The scan in wait_ready of what select reported, up to the copied bound; the
        object's own sets may have changed since.  No ready descriptor is missed, none
        is invented, and the pipe byte is read if there is one. */
    method ScanReady(c: Fds, trfds: set<nat>, twfds: set<nat>) returns (readable: seq<nat>, writable: seq<nat>)
      requires Exact(c) && trfds <= c.r && twfds <= c.w && (pipe in trfds ==> pipeBytes > 0)
      modifies this`pipeBytes
      ensures pipeBytes == old(pipeBytes) - (if pipe in trfds then 1 else 0)
      ensures Increasing(readable) && Increasing(writable)
      ensures forall fd :: fd in readable <==> fd in trfds && fd != pipe
      ensures forall fd :: fd in writable <==> fd in twfds && !(fd == pipe && pipe in trfds)
    {
      readable, writable := [], [];
      var fd := 0;
      while fd <= c.high
        invariant 0 <= fd <= c.high + 1
        invariant pipeBytes == old(pipeBytes) - (if pipe in trfds && pipe < fd then 1 else 0)
        invariant Increasing(readable) && Increasing(writable)
        invariant forall i :: 0 <= i < |readable| ==> readable[i] < fd
        invariant forall i :: 0 <= i < |writable| ==> writable[i] < fd
        invariant forall x :: x in readable <==> x in trfds && x != pipe && x < fd
        invariant forall x :: x in writable <==> x in twfds && !(x == pipe && pipe in trfds) && x < fd
      {
        if fd == pipe && fd in trfds {
          pipeBytes := pipeBytes - 1;
        } else {
          if fd in twfds {
            writable := writable + [fd];
          }
          if fd in trfds {
            readable := readable + [fd];
          }
        }
        fd := fd + 1;
      }
      forall x | x in trfds + twfds ensures x <= c.high {
        assert x in c.r + c.w;
      }
    }
  }
}
