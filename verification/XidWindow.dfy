/** The acknowledgement list of an RPC client (`xid_rep_window_`).

    The list starts as [0].  Reporting an xid inserts it at its sorted place and
    then compresses the list, so that its front is the largest n such that every
    xid in 1..n was reported.  The front travels in every request header. */
module XidWindow {

  /** What the list stands for: everything up to its front, and its members. */
  ghost predicate Acked(w: seq<nat>, k: nat) {
    w != [] && (k <= w[0] || k in w)
  }

  ghost predicate Sorted(w: seq<nat>) {
    forall i, j :: 0 <= i < j < |w| ==> w[i] <= w[j]
  }

  /** Sorted (repeats are possible) and fully compressed. */
  ghost predicate WellFormed(w: seq<nat>) {
    w != [] && Sorted(w) && w[0] + 1 !in w
  }

  /** `x` goes in front of the first larger element. */
  function Insert(w: seq<nat>, x: nat): (r: seq<nat>)
    ensures |r| == |w| + 1
  {
    if w == [] then [x]
    else if w[0] > x then [x] + w
    else [w[0]] + Insert(w[1..], x)
  }

  /** The compress loop with its iterator at position `it`.  A pop moves every
      node, hence also the iterator's position, one place to the front. */
  function Compress(w: seq<nat>, it: nat): (r: seq<nat>)
    requires w != [] && it <= |w|
    ensures r != []
    decreases |w| - it, |w|
  {
    if it == |w| then w
    else if w[0] + 1 == w[it] then Compress(w[1..], it - 1)
    else Compress(w, it + 1)
  }

  function Report(w: seq<nat>, x: nat): (r: seq<nat>)
    requires w != []
    ensures r != []
  {
    if x <= w[0] then w
    else Compress(Insert(w, x), 1)
  }

  lemma {:induction false} InsertSpec(w: seq<nat>, x: nat)
    requires Sorted(w)
    ensures Sorted(Insert(w, x))
    ensures forall k :: k in Insert(w, x) <==> k in w || k == x
    ensures w != [] && w[0] <= x ==> Insert(w, x)[0] == w[0]
  {
    if w == [] {
    } else if w[0] > x {
    } else {
      InsertSpec(w[1..], x);
      var r := Insert(w[1..], x);
      assert Insert(w, x) == [w[0]] + r;
      assert w == [w[0]] + w[1..];
      forall k ensures k in Insert(w, x) <==> k in w || k == x {
        assert k in Insert(w, x) <==> k == w[0] || k in r;
        assert k in w <==> k == w[0] || k in w[1..];
      }
      forall i, j | 0 <= i < j < |w| + 1 ensures Insert(w, x)[i] <= Insert(w, x)[j] {
        if i == 0 {
          assert r[j - 1] in r;
        }
      }
    }
  }

  lemma {:induction false} InsertAt(w: seq<nat>, x: nat, at: nat)
    requires at <= |w| && forall j :: 0 <= j < at ==> w[j] <= x
    requires at < |w| ==> w[at] > x
    ensures Insert(w, x) == w[..at] + [x] + w[at..]
  {
    if at == 0 {
      assert w[..0] + [x] + w[0..] == [x] + w;
    } else {
      InsertAt(w[1..], x, at - 1);
      assert w[..at] == [w[0]] + w[1..][..at - 1] && w[at..] == w[1..][at - 1..];
    }
  }

  /** The iterator has passed no node equal to front + 1. */
  ghost predicate Passed(w: seq<nat>, it: nat) {
    w != [] && it <= |w| && Sorted(w) && forall j :: 0 <= j < it ==> w[j] != w[0] + 1
  }

  /** One pop: the node under the iterator is never the node removed, and the
      list keeps its meaning. */
  lemma PopSpec(w: seq<nat>, it: nat)
    requires Passed(w, it) && it < |w| && w[0] + 1 == w[it]
    ensures 1 <= it && Passed(w[1..], it - 1)
    ensures forall k :: Acked(w[1..], k) <==> Acked(w, k)
  {
  }

  lemma {:induction false} CompressSpec(w: seq<nat>, it: nat)
    requires Passed(w, it)
    ensures WellFormed(Compress(w, it))
    ensures forall k :: Acked(Compress(w, it), k) <==> Acked(w, k)
    decreases |w| - it, |w|
  {
    if it == |w| {
    } else if w[0] + 1 == w[it] {
      PopSpec(w, it);
      CompressSpec(w[1..], it - 1);
    } else {
      CompressSpec(w, it + 1);
    }
  }

  /** Reporting adds exactly one xid to the meaning and keeps the list compressed. */
  lemma ReportSpec(w: seq<nat>, x: nat)
    requires WellFormed(w)
    ensures WellFormed(Report(w, x))
    ensures forall k :: Acked(Report(w, x), k) <==> Acked(w, k) || k == x
    ensures w[0] <= Report(w, x)[0]
  {
    if x > w[0] {
      InsertSpec(w, x);
      var v := Insert(w, x);
      CompressSpec(v, 1);
      forall k ensures Acked(Report(w, x), k) <==> Acked(w, k) || k == x {
        assert Acked(v, k) <==> Acked(w, k) || k == x;
      }
      FrontMonotone(w, Report(w, x));
    }
  }

  lemma FrontMonotone(w: seq<nat>, v: seq<nat>)
    requires WellFormed(w) && WellFormed(v)
    requires forall k :: Acked(w, k) ==> Acked(v, k)
    ensures w[0] <= v[0]
  {
    assert !Acked(v, v[0] + 1);
    assert !Acked(w, v[0] + 1);
  }

  function ReportAll(xs: seq<nat>): (w: seq<nat>)
    ensures w != []
  {
    if xs == [] then [0] else Report(ReportAll(xs[..|xs| - 1]), xs[|xs| - 1])
  }

  /** For any reports in any order and with repeats: the list is sorted and its
      front is the largest n such that all of 1..n were reported. */
  lemma {:induction false} FrontIsLargestPrefix(xs: seq<nat>)
    ensures WellFormed(ReportAll(xs))
    ensures forall k :: Acked(ReportAll(xs), k) <==> k == 0 || k in xs
    ensures forall k :: 1 <= k <= ReportAll(xs)[0] ==> k in xs
    ensures ReportAll(xs)[0] + 1 !in xs
  {
    if xs != [] {
      var init, last := xs[..|xs| - 1], xs[|xs| - 1];
      FrontIsLargestPrefix(init);
      ReportSpec(ReportAll(init), last);
      assert xs == init + [last];
    }
    var w := ReportAll(xs);
    forall k | 1 <= k <= w[0] ensures k in xs {
      assert Acked(w, k);
    }
    assert !Acked(w, w[0] + 1);
  }

  class XidRepWindow {
    var window: seq<nat>

    constructor ()
      ensures window == [0] && WellFormed(window)
    {
      window := [0];
    }

    method UpdateXidRep(xid: nat)
      requires WellFormed(window)
      modifies this
      ensures window == Report(old(window), xid)
      ensures WellFormed(window)
      ensures forall k :: Acked(window, k) <==> old(Acked(window, k)) || k == xid
    {
      ReportSpec(window, xid);
      if xid <= window[0] {
        return;
      }
      InsertSpec(window, xid);
      InsertInOrder(xid);
      CompressFront();
    }

    method InsertInOrder(xid: nat)
      modifies this
      ensures window == Insert(old(window), xid)
    {
      var at := 0;
      while at < |window| && window[at] <= xid
        invariant 0 <= at <= |window| && window == old(window)
        invariant forall j :: 0 <= j < at ==> window[j] <= xid
      {
        at := at + 1;
      }
      InsertAt(window, xid, at);
      window := window[..at] + [xid] + window[at..];
    }

    method CompressFront()
      requires Passed(window, 1)
      modifies this
      ensures window == Compress(old(window), 1)
    {
      var it := 1;
      while it < |window|
        invariant Passed(window, it) && it >= 0
        invariant Compress(window, it) == Compress(old(window), 1)
        decreases |window| - it, |window|
      {
        ghost var ahead := |window| - it;
        while window[0] + 1 == window[it]
          invariant |window| - it == ahead
          invariant 0 <= it < |window| && Passed(window, it)
          invariant Compress(window, it) == Compress(old(window), 1)
          decreases |window|
        {
          PopSpec(window, it);
          window := window[1..];
          it := it - 1;
        }
        it := it + 1;
      }
    }
  }
}
