/** Deadlines of a call: timespec arithmetic and the retransmission loop of call1. */
module Deadline {

  datatype Timespec = Timespec(sec: int, nsec: int)

  const SECOND := 1_000_000_000
  const MILLISECOND := 1_000_000
  const TO_MIN := 1000

  function Total(t: Timespec): int { t.sec * SECOND + t.nsec }

  // C division and remainder on int, which truncate towards zero.
  function Quot(a: int, b: int): int
    requires b > 0
  {
    if a >= 0 then a / b else -(-a / b)
  }

  function Rem(a: int, b: int): int
    requires b > 0
  {
    a - b * Quot(a, b)
  }

  /** The VERIFY of add_timespec. */
  predicate Addable(a: Timespec, b: int) { a.nsec + Rem(b, 1000) * MILLISECOND >= 0 }

  /** The time `b` milliseconds after `a`.  Whole seconds are carried only while the
      nanoseconds exceed a second, so exactly one second of them may remain. */
  function Add(a: Timespec, b: int): Timespec
    requires Addable(a, b)
  {
    var sec, nsec := a.sec + Quot(b, 1000), a.nsec + Rem(b, 1000) * MILLISECOND;
    var carry := if nsec == 0 then 0 else (nsec - 1) / SECOND;
    Timespec(sec + carry, nsec - carry * SECOND)
  }

  lemma AddPreservesTotal(a: Timespec, b: int)
    requires Addable(a, b)
    ensures Total(Add(a, b)) == Total(a) + b * MILLISECOND
    ensures 0 <= Add(a, b).nsec <= SECOND
    ensures Add(a, b).nsec == 0 <==> a.nsec + Rem(b, 1000) * MILLISECOND == 0
  {
  }

  /** An unnormalised result does occur. */
  lemma AddMayLeaveAWholeSecond()
    ensures Addable(Timespec(7, 0), 1000) && Addable(Timespec(7, 500 * MILLISECOND), 500)
    ensures Add(Timespec(7, 500 * MILLISECOND), 500) == Timespec(7, SECOND)
    ensures Add(Timespec(7, 0), 1000) == Timespec(8, 0)
  {
  }

  method AddTimespec(a: Timespec, b: int) returns (result: Timespec)
    requires Addable(a, b)
    ensures result == Add(a, b)
  {
    var sec, nsec := a.sec + Quot(b, 1000), a.nsec + Rem(b, 1000) * MILLISECOND;
    ghost var nsec0, carried := nsec, 0;
    while nsec > SECOND
      invariant 0 <= nsec <= nsec0 && (carried > 0 ==> nsec > 0) && carried >= 0
      invariant nsec == nsec0 - carried * SECOND && sec == a.sec + Quot(b, 1000) + carried
    {
      sec := sec + 1;
      nsec := nsec - SECOND;
      carried := carried + 1;
    }
    return Timespec(sec, nsec);
  }

  function Cmp(a: Timespec, b: Timespec): int {
    if a.sec > b.sec then 1
    else if a.sec < b.sec then -1
    else if a.nsec > b.nsec then 1
    else if a.nsec < b.nsec then -1
    else 0
  }

  predicate Proper(t: Timespec) { 0 <= t.nsec <= SECOND }

  /** The same instant written in the two possible ways. */
  predicate TwoForms(a: Timespec, b: Timespec) {
    || (a.sec == b.sec + 1 && a.nsec == 0 && b.nsec == SECOND)
    || (b.sec == a.sec + 1 && b.nsec == 0 && a.nsec == SECOND)
  }

  function Sign(x: int): int { if x > 0 then 1 else if x < 0 then -1 else 0 }

  /** cmp_timespec never orders two instants the wrong way round, and it is exact
      unless one of equal instants carries a whole second of nanoseconds. */
  lemma CmpExactly(a: Timespec, b: Timespec)
    requires Proper(a) && Proper(b)
    ensures Cmp(a, b) == Sign(Total(a) - Total(b)) <==> !TwoForms(a, b)
    ensures TwoForms(a, b) ==> Total(a) == Total(b) && Cmp(a, b) == Sign(a.sec - b.sec)
    ensures Cmp(a, b) > 0 ==> Total(a) >= Total(b)
    ensures Cmp(a, b) <= 0 ==> Total(a) <= Total(b)
  {
  }

  // ----------------------------------------------------------------- call1's loop

  function Pow2(n: nat): nat { if n == 0 then 1 else 2 * Pow2(n - 1) }

  /** `curr_to <<= 1` on a 32-bit int. */
  function Shl32(x: int): (r: int)
    ensures -0x8000_0000 <= r < 0x8000_0000
  {
    (2 * x + 0x8000_0000) % 0x1_0000_0000 - 0x8000_0000
  }

  /** `k` is least with TO_MIN * 2^k beyond the timeout. */
  ghost predicate LeastDoubling(to: int, k: nat) {
    TO_MIN * Pow2(k) > to && (k > 0 ==> TO_MIN * Pow2(k - 1) <= to)
  }

  /** `k` is least such that all the waits up to the k-th, added up, are beyond it. */
  ghost predicate LeastSum(to: int, k: nat) {
    TO_MIN * (Pow2(k + 1) - 1) > to && (k > 0 ==> TO_MIN * (Pow2(k) - 1) <= to)
  }

  /** Both exist, so the bounds below are never empty. */
  lemma {:induction false} LeastDoublingUpTo(to: int, hi: nat) returns (k: nat)
    requires TO_MIN * Pow2(hi) > to
    ensures LeastDoubling(to, k)
  {
    if hi == 0 || TO_MIN * Pow2(hi - 1) <= to {
      k := hi;
    } else {
      k := LeastDoublingUpTo(to, hi - 1);
    }
  }

  lemma {:induction false} LeastSumUpTo(to: int, hi: nat) returns (k: nat)
    requires TO_MIN * (Pow2(hi + 1) - 1) > to
    ensures LeastSum(to, k)
  {
    if hi == 0 || TO_MIN * (Pow2(hi) - 1) <= to {
      k := hi;
    } else {
      k := LeastSumUpTo(to, hi - 1);
    }
  }

  lemma LeastExist(to: int) returns (k: nat, l: nat)
    ensures LeastDoubling(to, k) && LeastSum(to, l)
  {
    var hi := if to < 0 then 0 else to;
    PowExceeds(hi);
    k := LeastDoublingUpTo(to, hi);
    l := LeastSumUpTo(to, hi);
  }

  lemma {:induction false} PowExceeds(n: nat)
    ensures Pow2(n) > n
  {
    if n > 0 {
      PowExceeds(n - 1);
    }
  }

  lemma {:induction false} PowPositive(n: nat)
    ensures Pow2(n) >= 1
  {
    if n > 0 {
      PowPositive(n - 1);
    }
  }

  lemma {:induction false} PowMonotone(m: nat, n: nat)
    requires m <= n
    ensures Pow2(m) <= Pow2(n)
  {
    if m < n {
      PowMonotone(m, n - 1);
    }
  }

  lemma PowTwentyOne()
    ensures Pow2(21) == 2097152
  {
    assert Pow2(7) == 128;
    assert Pow2(14) == 16384;
  }

  /** What clock_gettime returns, reading by reading. */
  ghost predicate Clock(clock: nat -> Timespec) {
    && (forall i :: 0 <= clock(i).nsec < SECOND)
    && (forall i, j :: i <= j ==> Total(clock(i)) <= Total(clock(j)))
  }

  /** Reading p + 1 starts pass p.  If its wait timed out, it did last until then. */
  ghost predicate Lasts(clock: nat -> Timespec, to: int, p: nat) {
    || Total(clock(p + 2)) >= Total(clock(p + 1)) + TO_MIN * Pow2(p) * MILLISECOND
    || Total(clock(p + 2)) >= Total(clock(0)) + to * MILLISECOND
  }

  ghost predicate WaitsLast(clock: nat -> Timespec, to: int) {
    forall p: nat :: Lasts(clock, to, p)
  }

  /** By pass p the waits so far have gone by, or the whole timeout has. */
  lemma {:induction false} TimePasses(clock: nat -> Timespec, to: int, p: nat)
    requires Clock(clock) && WaitsLast(clock, to)
    ensures || Total(clock(p + 1)) >= Total(clock(0)) + TO_MIN * (Pow2(p) - 1) * MILLISECOND
            || Total(clock(p + 1)) >= Total(clock(0)) + to * MILLISECOND
  {
    if p > 0 {
      TimePasses(clock, to, p - 1);
      assert Total(clock(p)) <= Total(clock(p + 1));
      assert Lasts(clock, to, p - 1);
    }
  }

  /** A pass whose deadline was not cut short. */
  lemma UncutPass(clock: nat -> Timespec, to: int, p: nat)
    requires Clock(clock)
    requires Total(clock(p + 1)) + TO_MIN * Pow2(p) * MILLISECOND <= Total(clock(0)) + to * MILLISECOND
    ensures TO_MIN * Pow2(p) <= to
    ensures WaitsLast(clock, to) ==> TO_MIN * (Pow2(p + 1) - 1) <= to
  {
    assert Total(clock(0)) <= Total(clock(p + 1));
    PowPositive(p);
    if WaitsLast(clock, to) {
      TimePasses(clock, to, p);
    }
  }

  /** Such a pass is early, so that doubling its wait does not overflow. */
  lemma NoOverflow(p: nat, to: int)
    requires to < 0x8000_0000 && TO_MIN * Pow2(p) <= to
    requires to < TO_MIN * Pow2(21) || TO_MIN * (Pow2(p + 1) - 1) <= to
    ensures p < 21 && Shl32(TO_MIN * Pow2(p)) == TO_MIN * Pow2(p + 1)
  {
    PowTwentyOne();
    if p >= 21 {
      PowMonotone(21, p);
      assert false;
    }
    PowMonotone(p + 1, 21);
  }

  /** The first `n` passes were not cut short. */
  ghost predicate Uncut(clock: nat -> Timespec, to: int, n: nat) {
    n > 0 ==>
      && TO_MIN * Pow2(n - 1) <= to
      && (WaitsLast(clock, to) ==> TO_MIN * (Pow2(n) - 1) <= to)
  }

  lemma UncutBound(clock: nat -> Timespec, to: int, n: nat)
    requires Uncut(clock, to, n)
    ensures forall k: nat :: LeastDoubling(to, k) ==> n <= k
    ensures WaitsLast(clock, to) ==> forall k: nat :: LeastSum(to, k) ==> n <= k
  {
    forall k: nat | LeastDoubling(to, k) ensures n <= k {
      if n > k {
        PowMonotone(k, n - 1);
      }
    }
    if WaitsLast(clock, to) {
      forall k: nat | LeastSum(to, k) ensures n <= k {
        if n > k {
          PowMonotone(k + 1, n);
        }
      }
    }
  }

  lemma UncutMore(clock: nat -> Timespec, to: int, p: nat)
    requires Clock(clock) && to < 0x8000_0000 && (to < TO_MIN * Pow2(21) || WaitsLast(clock, to))
    requires Total(clock(p + 1)) + TO_MIN * Pow2(p) * MILLISECOND <= Total(clock(0)) + to * MILLISECOND
    ensures Uncut(clock, to, p + 1) && p < 21 && Shl32(TO_MIN * Pow2(p)) == TO_MIN * Pow2(p + 1)
  {
    UncutPass(clock, to, p);
    NoOverflow(p, to);
  }

  /** The deadline of one pass, cut short at the final one; cleared seconds mark the
      final deadline as used. */
  method PassDeadline(now: Timespec, curr: int, final: Timespec) returns (next: Timespec, rest: Timespec)
    requires 0 <= now.nsec < SECOND && curr >= 0 && Proper(final) && final.sec != 0
    ensures Total(next) <= Total(final)
    ensures if rest.sec == 0 then next == final else
              rest == final && Total(next) == Total(now) + curr * MILLISECOND
    ensures Total(now) + curr * MILLISECOND > Total(final) ==> rest.sec == 0
  {
    next := AddTimespec(now, curr);
    rest := final;
    AddPreservesTotal(now, curr);
    CmpExactly(next, final);
    if Cmp(next, final) > 0 {
      next := final;
      rest := rest.(sec := 0);
    }
  }

  ghost predicate WaitsOk(waits: seq<Timespec>, last: Timespec) {
    forall i :: 0 <= i < |waits| ==> Total(waits[i]) <= Total(last)
  }

  /** Before pass number |waits|: the final deadline `last` is still to come, or the
      last wait was for it. */
  ghost predicate LoopOk(clock: nat -> Timespec, to: int, last: Timespec, final: Timespec, curr: int, waits: seq<Timespec>) {
    var n := |waits|;
    if final.sec != 0 then final == last && n <= 21 && curr == TO_MIN * Pow2(n) && Uncut(clock, to, n)
    else if n == 0 then last.sec == 0
    else n <= 22 && last.sec != 0 && waits[n - 1] == last && Uncut(clock, to, n - 1)
  }

  /** What holds of the time and the timeout all along. */
  ghost predicate Setting(clock: nat -> Timespec, to: int, last: Timespec) {
    && Clock(clock) && to < 0x8000_0000 && (to < TO_MIN * Pow2(21) || WaitsLast(clock, to))
    && Proper(last) && Total(last) == Total(clock(0)) + to * MILLISECOND
  }

  lemma PassKeeps(clock: nat -> Timespec, to: int, last: Timespec, final: Timespec, curr: int, waits: seq<Timespec>,
                  next: Timespec, rest: Timespec)
    requires Setting(clock, to, last) && LoopOk(clock, to, last, final, curr, waits) && final.sec != 0
    requires Total(next) <= Total(final)
    requires if rest.sec == 0 then next == final else
               rest == final && Total(next) == Total(clock(|waits| + 1)) + curr * MILLISECOND
    ensures LoopOk(clock, to, last, rest, Shl32(curr), waits + [next])
  {
    if rest.sec != 0 {
      UncutMore(clock, to, |waits|);
    }
  }

  /** The bounds on the number of passes: K + 2 in any case, less when waits last. */
  ghost predicate AtMost(clock: nat -> Timespec, to: int, passes: nat) {
    && (forall k: nat :: LeastDoubling(to, k) ==> passes <= k + 2)
    && (WaitsLast(clock, to) ==> forall k: nat :: LeastSum(to, k) ==> passes <= k + 2)
  }

  /** They follow from where the loop stands. */
  lemma LoopBound(clock: nat -> Timespec, to: int, last: Timespec, final: Timespec, curr: int, waits: seq<Timespec>)
    requires LoopOk(clock, to, last, final, curr, waits)
    ensures AtMost(clock, to, |waits|) && AtMost(clock, to, |waits| + 1)
  {
    UncutBound(clock, to, if final.sec == 0 && |waits| > 0 then |waits| - 1 else |waits|);
  }

  /** How the loop ended: a call that gives up has just waited for `last`. */
  ghost predicate Ended(last: Timespec, waits: seq<Timespec>, passes: nat, done: bool, answered: nat) {
    && (last.sec == 0 ==> passes == 1 && waits == [] && !done)
    && (last.sec != 0 ==> waits != [])
    && (!done ==> passes == |waits| + 1 && (waits != [] ==> waits[|waits| - 1] == last))
    && (done ==> passes == |waits| == answered + 1)
  }

  /** The loop of call1, from its final deadline on. */
  method Passes(clock: nat -> Timespec, to: int, last: Timespec, answered: nat)
    returns (waits: seq<Timespec>, passes: nat, done: bool)
    requires Setting(clock, to, last)
    ensures WaitsOk(waits, last) && Ended(last, waits, passes, done, answered) && AtMost(clock, to, passes)
  {
    var final, curr := last, TO_MIN;
    waits, passes, done := [], 0, false;
    while true
      invariant passes == |waits| && !done && WaitsOk(waits, last)
      invariant LoopOk(clock, to, last, final, curr, waits)
      decreases 24 - passes
    {
      passes := passes + 1;
      if final.sec == 0 {
        LoopBound(clock, to, last, final, curr, waits);
        break;
      }
      var next, rest := PassDeadline(clock(passes), curr, final);
      PassKeeps(clock, to, last, final, curr, waits, next, rest);
      waits, final := waits + [next], rest;
      if answered == |waits| - 1 {
        LoopBound(clock, to, last, final, Shl32(curr), waits);
        done := true;
        break;
      }
      curr := Shl32(curr);
    }
  }

  /** The waits of call1.  `answered` is the pass in whose wait the reply arrives, if
      any.  Returns the deadlines waited for.

      Every wait ends by the final deadline; the call gives up only after waiting for
      exactly that deadline; and there are at most K + 2 passes, fewer when waits
      really last.  A timeout close to 2^31 needs that clock: otherwise the doubled
      wait would overflow. */
  method WaitLoop(clock: nat -> Timespec, to: int, answered: nat) returns (waits: seq<Timespec>, passes: nat, done: bool)
    requires Clock(clock) && to < 0x8000_0000 && Addable(clock(0), to)
    requires to < TO_MIN * Pow2(21) || WaitsLast(clock, to)
    ensures Ended(Add(clock(0), to), waits, passes, done, answered)
    ensures forall i :: 0 <= i < |waits| ==> Total(waits[i]) <= Total(clock(0)) + to * MILLISECOND
    ensures !done && waits != [] ==> Total(waits[|waits| - 1]) == Total(clock(0)) + to * MILLISECOND
    ensures AtMost(clock, to, passes)
  {
    var final := AddTimespec(clock(0), to);
    AddPreservesTotal(clock(0), to);
    waits, passes, done := Passes(clock, to, final, answered);
  }
}
