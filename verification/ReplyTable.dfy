/** What an RPC handler hands back: the status and the marshalled result. */
module Messages {
  datatype Reply = Reply(ret: int, body: seq<int>)

  const BIND := 1
  const TIMEOUT_FAILURE := -1
  const ATMOSTONCE_FAILURE := -4
  const OLDSRV_FAILURE := -5
  const BIND_FAILURE := -6
  const CANCEL_FAILURE := -7
}

/** The server's at-most-once state: `reply_window_`, `reply_lower_bound_` and
    `reply_set_`, one slot of each per client nonce. */
module ReplyTable {
  import opened Messages

  datatype Entry = Entry(xid: nat, reply: Reply)

  datatype Verdict = New | InProgress | Done(reply: Reply) | Forgotten

  /** `freed` logs every buffer passed to free(). */
  datatype Tables = Tables(
    window: map<nat, seq<Entry>>,
    bound: map<nat, nat>,
    seen: map<nat, set<nat>>,
    freed: multiset<(nat, Entry)>)

  const EMPTY := Tables(map[], map[], map[], multiset{})

  function Window(t: Tables, c: nat): seq<Entry> { if c in t.window then t.window[c] else [] }
  function Bound(t: Tables, c: nat): nat { if c in t.bound then t.bound[c] else 0 }
  function Seen(t: Tables, c: nat): set<nat> { if c in t.seen then t.seen[c] else {} }

  // ---------------------------------------------------------------- operations

  /** dispatch creates the window of a client it does not know. */
  function Admit(t: Tables, c: nat): Tables {
    if c in t.window then t else t.(window := t.window[c := []])
  }

  function TrimCount(w: seq<Entry>, rep: nat): (n: nat)
    ensures n <= |w|
  {
    if w != [] && w[0].xid < rep then 1 + TrimCount(w[1..], rep) else 0
  }

  function Tagged(c: nat, w: seq<Entry>): multiset<(nat, Entry)> {
    if w == [] then multiset{} else multiset{(c, w[0])} + Tagged(c, w[1..])
  }

  /** The seen set is cut only when `rep` itself is a member. */
  function CutSeen(seen: set<nat>, rep: nat): set<nat> {
    if rep > 0 && rep in seen then set x | x in seen && rep <= x else seen
  }

  /** The VERIFYs that guard the first part of checkduplicate_and_update. */
  predicate Checkable(t: Tables, c: nat) {
    c in t.bound ==> c in t.window && c in t.seen
  }

  function Raise(t: Tables, c: nat, rep: nat): (r: Tables)
    requires Checkable(t, c)
  {
    if c !in t.bound then t.(bound := t.bound[c := rep])
    else if t.bound[c] < rep then
      var n := TrimCount(t.window[c], rep);
      Tables(t.window[c := t.window[c][n..]], t.bound[c := rep], t.seen[c := CutSeen(t.seen[c], rep)],
             t.freed + Tagged(c, t.window[c][..n]))
    else t
  }

  function Lookup(w: seq<Entry>, xid: nat): Verdict {
    if w == [] then New
    else if w[0].xid == xid then Done(w[0].reply)
    else Lookup(w[1..], xid)
  }

  function Check(t: Tables, c: nat, xid: nat, rep: nat): (Tables, Verdict)
    requires Checkable(t, c)
  {
    var u := Raise(t, c, rep);
    var known := xid in Seen(u, c);
    var found := Lookup(Window(u, c), xid);
    (u.(seen := u.seen[c := Seen(u, c) + {xid}]),
     if found.Done? then found
     else if known then InProgress
     else if xid <= Bound(u, c) then Forgotten
     else New)
  }

  function InsertEntry(w: seq<Entry>, e: Entry): seq<Entry> {
    if w != [] && w[0].xid < e.xid then [w[0]] + InsertEntry(w[1..], e) else [e] + w
  }

  /** The VERIFYs of add_reply. */
  predicate Addable(t: Tables, c: nat, xid: nat) {
    c in t.window && forall e :: e in t.window[c] ==> e.xid != xid
  }

  function AddReply(t: Tables, c: nat, xid: nat, reply: Reply): Tables
    requires Addable(t, c, xid)
  {
    t.(window := t.window[c := InsertEntry(t.window[c], Entry(xid, reply))])
  }

  // ------------------------------------------------------------------- history

  /** The simple account the three structures stand for: the xids a client asked
      about, those answered New, and the replies given to add_reply. */
  datatype History = History(asked: set<nat>, issued: set<nat>, replied: map<nat, Reply>)

  const BLANK := History({}, {}, map[])

  function Of(h: map<nat, History>, c: nat): History { if c in h then h[c] else BLANK }

  function SpecVerdict(h: History, xid: nat): Verdict {
    if xid !in h.asked then New
    else if xid in h.replied then Done(h.replied[xid])
    else InProgress
  }

  function Asked(h: History, xid: nat, v: Verdict): History {
    h.(asked := h.asked + {xid}, issued := if v.New? then h.issued + {xid} else h.issued)
  }

  function Replied(h: History, xid: nat, reply: Reply): History {
    h.(replied := h.replied[xid := reply])
  }

  ghost predicate StrictlySorted(w: seq<Entry>) {
    forall i, j :: 0 <= i < j < |w| ==> w[i].xid < w[j].xid
  }

  ghost predicate Sane(h: History) {
    h.replied.Keys <= h.issued <= h.asked
  }

  /** The window against the history: at or above the bound nothing is missing. */
  ghost predicate WindowOk(w: seq<Entry>, b: nat, h: History) {
    && StrictlySorted(w)
    && (forall e :: e in w ==> e.xid in h.replied && h.replied[e.xid] == e.reply)
    && (forall x :: x in h.replied && b <= x ==> Entry(x, h.replied[x]) in w)
  }

  ghost predicate SeenOk(seen: set<nat>, b: nat, h: History) {
    && seen <= h.asked
    && (forall x :: x in h.asked && b <= x ==> x in seen)
    && (forall x :: x in h.asked && b < x ==> x in h.issued)
  }

  ghost predicate ClientOk(t: Tables, h: map<nat, History>, c: nat) {
    && Sane(Of(h, c))
    && WindowOk(Window(t, c), Bound(t, c), Of(h, c))
    && SeenOk(Seen(t, c), Bound(t, c), Of(h, c))
  }

  ghost predicate Refines(t: Tables, h: map<nat, History>) {
    && (forall c :: c in t.bound ==> c in t.window && c in t.seen)
    && (forall c :: ClientOk(t, h, c))
  }

  /** 1 for a buffer that add_reply received, 0 for any other. */
  function Given(h: map<nat, History>, c: nat, e: Entry): nat {
    if e.xid in Of(h, c).replied && Of(h, c).replied[e.xid] == e.reply then 1 else 0
  }

  /** Every buffer given to add_reply is in its window once or was freed once. */
  ghost predicate Conserved(t: Tables, h: map<nat, History>) {
    forall c, e :: multiset(Window(t, c))[e] + t.freed[(c, e)] == Given(h, c, e)
  }

  // -------------------------------------------------------------------- lemmas

  lemma {:induction false} TrimSpec(w: seq<Entry>, rep: nat)
    requires StrictlySorted(w)
    ensures forall i :: 0 <= i < |w| ==> (w[i].xid < rep <==> i < TrimCount(w, rep))
  {
    if w != [] && w[0].xid < rep {
      TrimSpec(w[1..], rep);
      forall i | 0 <= i < |w| ensures w[i].xid < rep <==> i < TrimCount(w, rep) {
        if i > 0 {
          assert w[i] == w[1..][i - 1];
        }
      }
    }
  }

  /** Dropping the first `n` entries when those are the ones below `rep`. */
  lemma DropBelow(w: seq<Entry>, rep: nat, n: nat)
    requires n <= |w| && forall i :: 0 <= i < |w| ==> (w[i].xid < rep <==> i < n)
    ensures forall e :: e in w[n..] <==> e in w && rep <= e.xid
  {
    forall e | e in w && rep <= e.xid ensures e in w[n..] {
      var i :| 0 <= i < |w| && w[i] == e;
      assert w[n..][i - n] == e;
    }
  }

  lemma SplitBag(w: seq<Entry>, n: nat)
    requires n <= |w|
    ensures multiset(w) == multiset(w[..n]) + multiset(w[n..])
  {
    assert w == w[..n] + w[n..];
  }

  /** A trim removes exactly the entries below `rep`. */
  lemma TrimExact(w: seq<Entry>, rep: nat)
    requires StrictlySorted(w)
    ensures StrictlySorted(w[TrimCount(w, rep)..])
    ensures forall e :: e in w[TrimCount(w, rep)..] <==> e in w && rep <= e.xid
    ensures multiset(w) == multiset(w[..TrimCount(w, rep)]) + multiset(w[TrimCount(w, rep)..])
  {
    TrimSpec(w, rep);
    DropBelow(w, rep, TrimCount(w, rep));
    SplitBag(w, TrimCount(w, rep));
  }

  lemma {:induction false} TaggedCount(c: nat, w: seq<Entry>, d: nat, e: Entry)
    ensures Tagged(c, w)[(d, e)] == if c == d then multiset(w)[e] else 0
  {
    if w != [] {
      TaggedCount(c, w[1..], d, e);
      assert w == [w[0]] + w[1..];
    }
  }

  lemma {:induction false} LookupSpec(w: seq<Entry>, xid: nat)
    ensures match Lookup(w, xid)
            case Done(r) => Entry(xid, r) in w
            case _ => Lookup(w, xid) == New && forall e :: e in w ==> e.xid != xid
  {
    if w != [] && w[0].xid != xid {
      LookupSpec(w[1..], xid);
    }
  }

  lemma {:induction false} InsertEntryBag(w: seq<Entry>, e: Entry)
    ensures multiset(InsertEntry(w, e)) == multiset(w) + multiset{e}
  {
    if w != [] && w[0].xid < e.xid {
      InsertEntryBag(w[1..], e);
      assert w == [w[0]] + w[1..];
    }
  }

  lemma InsertEntryMembers(w: seq<Entry>, e: Entry)
    ensures forall x :: x in InsertEntry(w, e) <==> x in w || x == e
  {
  }

  lemma {:induction false} InsertEntrySorted(w: seq<Entry>, e: Entry)
    requires StrictlySorted(w) && forall x :: x in w ==> x.xid != e.xid
    ensures StrictlySorted(InsertEntry(w, e))
  {
    if w != [] && w[0].xid < e.xid {
      var r := InsertEntry(w[1..], e);
      InsertEntrySorted(w[1..], e);
      InsertEntryMembers(w[1..], e);
      forall j | 0 <= j < |r| ensures w[0].xid < r[j].xid {
        assert r[j] in r;
      }
    } else {
      assert w != [] ==> w[0] in w;
    }
  }

  lemma WindowTrimmed(w: seq<Entry>, b: nat, rep: nat, h: History)
    requires WindowOk(w, b, h) && b < rep
    ensures WindowOk(w[TrimCount(w, rep)..], rep, h)
  {
    TrimExact(w, rep);
  }

  lemma RaiseKeepsClient(t: Tables, h: map<nat, History>, c: nat, rep: nat)
    requires Checkable(t, c) && ClientOk(t, h, c)
    ensures ClientOk(Raise(t, c, rep), h, c)
    ensures rep <= Bound(Raise(t, c, rep), c) && Bound(t, c) <= Bound(Raise(t, c, rep), c)
    ensures forall x :: x in Of(h, c).asked && Bound(Raise(t, c, rep), c) < x ==> x in Seen(Raise(t, c, rep), c)
  {
    if c in t.bound && t.bound[c] < rep {
      WindowTrimmed(t.window[c], t.bound[c], rep, Of(h, c));
    }
  }

  /** The three structures refine the history.  Above the raised bound the verdict
      is the history's own; at or below it the verdict is never New, and a reply
      handed back is always the one recorded. */
  lemma CheckVerdict(t: Tables, h: map<nat, History>, c: nat, xid: nat, rep: nat)
    requires Checkable(t, c) && ClientOk(t, h, c)
    ensures var (u, v) := Check(t, c, xid, rep);
            && Bound(u, c) == (if c in t.bound && rep < t.bound[c] then t.bound[c] else rep)
            && (xid > Bound(u, c) ==> v == SpecVerdict(Of(h, c), xid))
            && (xid <= Bound(u, c) ==> !v.New?)
            && (v.Done? ==> xid in Of(h, c).replied && v.reply == Of(h, c).replied[xid])
  {
    RaiseKeepsClient(t, h, c, rep);
    LookupSpec(Window(Raise(t, c, rep), c), xid);
  }

  lemma WindowStill(w: seq<Entry>, b: nat, h: History, xid: nat, v: Verdict)
    requires WindowOk(w, b, h)
    ensures WindowOk(w, b, Asked(h, xid, v))
  {
  }

  lemma SeenGrows(seen: set<nat>, b: nat, h: History, xid: nat, v: Verdict)
    requires SeenOk(seen, b, h) && Sane(h) && (b < xid ==> v.New? || xid in h.issued)
    ensures SeenOk(seen + {xid}, b, Asked(h, xid, v)) && Sane(Asked(h, xid, v))
  {
  }

  lemma CheckParts(t: Tables, c: nat, xid: nat, rep: nat)
    requires Checkable(t, c)
    ensures var u, w := Raise(t, c, rep), Check(t, c, xid, rep).0;
            Window(w, c) == Window(u, c) && Bound(w, c) == Bound(u, c) && Seen(w, c) == Seen(u, c) + {xid}
  {
  }

  lemma ClientOkParts(t: Tables, h: map<nat, History>, c: nat, g: History)
    requires Sane(g) && WindowOk(Window(t, c), Bound(t, c), g) && SeenOk(Seen(t, c), Bound(t, c), g)
    ensures ClientOk(t, h[c := g], c)
  {
  }

  lemma CheckKeepsClient(t: Tables, h: map<nat, History>, c: nat, xid: nat, rep: nat)
    requires Checkable(t, c) && ClientOk(t, h, c)
    ensures var (u, v) := Check(t, c, xid, rep);
            ClientOk(u, h[c := Asked(Of(h, c), xid, v)], c)
  {
    RaiseKeepsClient(t, h, c, rep);
    CheckVerdict(t, h, c, xid, rep);
    CheckParts(t, c, xid, rep);
    var u, g := Raise(t, c, rep), Of(h, c);
    var (w, v) := Check(t, c, xid, rep);
    WindowStill(Window(u, c), Bound(u, c), g, xid, v);
    SeenGrows(Seen(u, c), Bound(u, c), g, xid, v);
    ClientOkParts(w, h, c, Asked(g, xid, v));
  }

  lemma CheckFrame(t: Tables, h: map<nat, History>, c: nat, xid: nat, rep: nat, d: nat)
    requires Checkable(t, c) && c != d
    ensures var (u, v) := Check(t, c, xid, rep);
            Window(u, d) == Window(t, d) && Bound(u, d) == Bound(t, d) && Seen(u, d) == Seen(t, d)
            && Of(h[c := Asked(Of(h, c), xid, v)], d) == Of(h, d)
  {
  }

  lemma CheckRefines(t: Tables, h: map<nat, History>, c: nat, xid: nat, rep: nat)
    requires Refines(t, h) && c in t.window
    ensures var (u, v) := Check(t, c, xid, rep);
            Refines(u, h[c := Asked(Of(h, c), xid, v)])
  {
    assert ClientOk(t, h, c);
    CheckKeepsClient(t, h, c, xid, rep);
    var (u, v) := Check(t, c, xid, rep);
    var g := h[c := Asked(Of(h, c), xid, v)];
    forall d ensures ClientOk(u, g, d) {
      assert ClientOk(t, h, d);
      if d != c {
        CheckFrame(t, h, c, xid, rep, d);
      }
    }
  }

  /** A trim moves buffers from the window to the freed ones, and makes none. */
  lemma RaiseCount(t: Tables, c: nat, rep: nat, d: nat, e: Entry)
    requires Checkable(t, c)
    ensures var u := Raise(t, c, rep);
            multiset(Window(u, d))[e] + u.freed[(d, e)] == multiset(Window(t, d))[e] + t.freed[(d, e)]
  {
    if c in t.bound && t.bound[c] < rep {
      var n := TrimCount(t.window[c], rep);
      TaggedCount(c, t.window[c][..n], d, e);
      SplitBag(t.window[c], n);
    }
  }

  lemma CheckConserves(t: Tables, h: map<nat, History>, c: nat, xid: nat, rep: nat)
    requires Checkable(t, c) && Conserved(t, h)
    ensures var (u, v) := Check(t, c, xid, rep);
            Conserved(u, h[c := Asked(Of(h, c), xid, v)])
  {
    var (u, v) := Check(t, c, xid, rep);
    var g := h[c := Asked(Of(h, c), xid, v)];
    forall d, e ensures multiset(Window(u, d))[e] + u.freed[(d, e)] == Given(g, d, e) {
      assert multiset(Window(t, d))[e] + t.freed[(d, e)] == Given(h, d, e);
      RaiseCount(t, c, rep, d, e);
      assert Given(g, d, e) == Given(h, d, e);
    }
  }

  // -------------------------------------------- what one check does, told exactly

  /** The request acknowledges more than the client's earlier ones did. */
  predicate Raises(t: Tables, c: nat, rep: nat) { c in t.bound && t.bound[c] < rep }

  /** Entries and seen xids that the request does not make the server drop. */
  predicate Kept(t: Tables, c: nat, rep: nat, x: nat) { Raises(t, c, rep) ==> rep <= x }
  predicate Known(t: Tables, c: nat, rep: nat, x: nat) {
    x in Seen(t, c) && (Raises(t, c, rep) && rep in Seen(t, c) ==> rep <= x)
  }

  function NewBound(t: Tables, c: nat, rep: nat): nat {
    if c in t.bound && rep <= t.bound[c] then t.bound[c] else rep
  }

  /** Exactly the acknowledged replies leave the window and are freed, once each; the
      seen set and the bound follow; other clients are left alone. */
  ghost predicate Updated(t: Tables, u: Tables, c: nat, xid: nat, rep: nat) {
    && (forall e :: e in Window(u, c) <==> e in Window(t, c) && Kept(t, c, rep, e.xid))
    && StrictlySorted(Window(u, c))
    && (forall d, e :: u.freed[(d, e)] ==
          t.freed[(d, e)] + (if d == c && e in Window(t, c) && !Kept(t, c, rep, e.xid) then 1 else 0))
    && (forall x :: x in Seen(u, c) <==> x == xid || Known(t, c, rep, x))
    && Bound(u, c) == NewBound(t, c, rep)
    && (forall d :: d != c ==> Window(u, d) == Window(t, d) && Bound(u, d) == Bound(t, d) && Seen(u, d) == Seen(t, d))
  }

  lemma {:induction false} SortedOnce(w: seq<Entry>, e: Entry)
    requires StrictlySorted(w)
    ensures multiset(w)[e] == if e in w then 1 else 0
  {
    if w != [] {
      SortedOnce(w[1..], e);
      assert w == [w[0]] + w[1..];
      assert w[0] !in w[1..];
    }
  }

  lemma FreedExactly(t: Tables, c: nat, rep: nat, d: nat, e: Entry)
    requires Checkable(t, c) && StrictlySorted(Window(t, c))
    ensures Raise(t, c, rep).freed[(d, e)] ==
            t.freed[(d, e)] + (if d == c && e in Window(t, c) && !Kept(t, c, rep, e.xid) then 1 else 0)
  {
    if Raises(t, c, rep) {
      var w := t.window[c];
      var n := TrimCount(w, rep);
      TaggedCount(c, w[..n], d, e);
      TrimExact(w, rep);
      SortedOnce(w, e);
      SortedOnce(w[n..], e);
    }
  }

  lemma RaisedWindow(t: Tables, c: nat, rep: nat)
    requires Checkable(t, c) && StrictlySorted(Window(t, c))
    ensures var w := Window(Raise(t, c, rep), c);
            StrictlySorted(w) && forall e :: e in w <==> e in Window(t, c) && Kept(t, c, rep, e.xid)
  {
    if Raises(t, c, rep) {
      TrimExact(t.window[c], rep);
    }
  }

  lemma RaisedRest(t: Tables, c: nat, rep: nat)
    requires Checkable(t, c)
    ensures var u := Raise(t, c, rep);
            && (forall x :: x in Seen(u, c) <==> Known(t, c, rep, x))
            && Bound(u, c) == NewBound(t, c, rep)
  {
  }

  lemma CheckUpdates(t: Tables, c: nat, xid: nat, rep: nat)
    requires Checkable(t, c) && StrictlySorted(Window(t, c))
    ensures Updated(t, Check(t, c, xid, rep).0, c, xid, rep)
  {
    var u := Check(t, c, xid, rep).0;
    CheckParts(t, c, xid, rep);
    RaisedWindow(t, c, rep);
    RaisedRest(t, c, rep);
    forall d, e {
      FreedExactly(t, c, rep, d, e);
    }
    forall d | d != c ensures Window(u, d) == Window(t, d) && Bound(u, d) == Bound(t, d) && Seen(u, d) == Seen(t, d) {
      CheckFrame(t, map[], c, xid, rep, d);
    }
  }

  /** Which of the four verdicts a request gets, below the bound as above it. */
  ghost predicate Answers(t: Tables, c: nat, xid: nat, rep: nat, v: Verdict) {
    var kept := Kept(t, c, rep, xid) && exists e :: e in Window(t, c) && e.xid == xid;
    && (v.Done? <==> kept)
    && (v.Done? ==> Entry(xid, v.reply) in Window(t, c))
    && (v.InProgress? <==> !kept && Known(t, c, rep, xid))
    && (v.Forgotten? <==> !kept && !Known(t, c, rep, xid) && xid <= NewBound(t, c, rep))
    && (v.New? <==> !kept && !Known(t, c, rep, xid) && xid > NewBound(t, c, rep))
  }

  lemma CheckAnswers(t: Tables, c: nat, xid: nat, rep: nat)
    requires Checkable(t, c) && StrictlySorted(Window(t, c))
    ensures Answers(t, c, xid, rep, Check(t, c, xid, rep).1)
  {
    RaisedWindow(t, c, rep);
    RaisedRest(t, c, rep);
    LookupSpec(Window(Raise(t, c, rep), c), xid);
  }

  /** add_reply's VERIFYs hold for any call answered New and not yet replied. */
  lemma AddableWhenRunning(t: Tables, h: map<nat, History>, c: nat, xid: nat)
    requires Refines(t, h) && c in t.window && xid !in Of(h, c).replied
    ensures Addable(t, c, xid)
  {
    assert ClientOk(t, h, c);
  }

  lemma AddReplyRefines(t: Tables, h: map<nat, History>, c: nat, xid: nat, reply: Reply)
    requires Refines(t, h) && c in t.window
    requires xid in Of(h, c).issued && xid !in Of(h, c).replied
    ensures Addable(t, c, xid)
    ensures Refines(AddReply(t, c, xid, reply), h[c := Replied(Of(h, c), xid, reply)])
  {
    AddableWhenRunning(t, h, c, xid);
    assert ClientOk(t, h, c);
    InsertEntrySorted(t.window[c], Entry(xid, reply));
    InsertEntryMembers(t.window[c], Entry(xid, reply));
    var u, g := AddReply(t, c, xid, reply), h[c := Replied(Of(h, c), xid, reply)];
    forall d ensures ClientOk(u, g, d) {
      assert ClientOk(t, h, d);
      if d != c {
        assert Of(g, d) == Of(h, d);
      }
    }
  }

  lemma AddReplyCount(t: Tables, h: map<nat, History>, c: nat, xid: nat, reply: Reply, d: nat, e: Entry)
    requires Addable(t, c, xid) && xid !in Of(h, c).replied
    requires multiset(Window(t, d))[e] + t.freed[(d, e)] == Given(h, d, e)
    ensures var u, g := AddReply(t, c, xid, reply), h[c := Replied(Of(h, c), xid, reply)];
            multiset(Window(u, d))[e] + u.freed[(d, e)] == Given(g, d, e)
  {
    InsertEntryBag(t.window[c], Entry(xid, reply));
  }

  lemma AddReplyConserves(t: Tables, h: map<nat, History>, c: nat, xid: nat, reply: Reply)
    requires Conserved(t, h) && Addable(t, c, xid) && xid !in Of(h, c).replied
    ensures Conserved(AddReply(t, c, xid, reply), h[c := Replied(Of(h, c), xid, reply)])
  {
    var u, g := AddReply(t, c, xid, reply), h[c := Replied(Of(h, c), xid, reply)];
    forall d, e ensures multiset(Window(u, d))[e] + u.freed[(d, e)] == Given(g, d, e) {
      AddReplyCount(t, h, c, xid, reply, d, e);
    }
  }

  // ------------------------------------------------- every run of one instance

  /** One critical section of a dispatch thread, with arbitrary request fields. */
  datatype Event =
    | Arrive(clt: nat)
    | Ask(clt: nat, xid: nat, rep: nat)
    | Answer(clt: nat, xid: nat, reply: Reply)

  datatype Instance = Instance(tables: Tables, hist: map<nat, History>, news: seq<(nat, nat)>)

  const FRESH := Instance(EMPTY, map[], [])

  /** dispatch checks a request after admitting its client, and adds a reply only
      after the handler of a New request returned. */
  predicate Allowed(s: Instance, e: Event) {
    match e
    case Arrive(c) => true
    case Ask(c, xid, rep) => c in s.tables.window
    case Answer(c, xid, reply) => xid in Of(s.hist, c).issued && xid !in Of(s.hist, c).replied
  }

  /** The VERIFYs an event runs into. */
  predicate Verified(s: Instance, e: Event) {
    match e
    case Arrive(c) => true
    case Ask(c, xid, rep) => Checkable(s.tables, c)
    case Answer(c, xid, reply) => Addable(s.tables, c, xid)
  }

  function React(s: Instance, e: Event): Instance
    requires Verified(s, e)
  {
    match e
    case Arrive(c) => s.(tables := Admit(s.tables, c))
    case Ask(c, xid, rep) =>
      var (u, v) := Check(s.tables, c, xid, rep);
      Instance(u, s.hist[c := Asked(Of(s.hist, c), xid, v)], if v.New? then s.news + [(c, xid)] else s.news)
    case Answer(c, xid, reply) =>
      Instance(AddReply(s.tables, c, xid, reply), s.hist[c := Replied(Of(s.hist, c), xid, reply)], s.news)
  }

  ghost predicate Distinct<T(!new)>(q: seq<T>) {
    forall i, j :: 0 <= i < j < |q| ==> q[i] != q[j]
  }

  ghost predicate InstanceInv(s: Instance) {
    && Refines(s.tables, s.hist)
    && Conserved(s.tables, s.hist)
    && (forall c :: c in s.hist ==> c in s.tables.window)
    && NewsOk(s.news, s.hist)
  }

  lemma AllowedIsVerified(s: Instance, e: Event)
    requires InstanceInv(s) && Allowed(s, e)
    ensures Verified(s, e)
  {
    match e
    case Arrive(c) =>
    case Ask(c, xid, rep) =>
    case Answer(c, xid, reply) => AddableWhenRunning(s.tables, s.hist, c, xid);
  }

  ghost predicate NewsOk(news: seq<(nat, nat)>, h: map<nat, History>) {
    Distinct(news) && forall c: nat, xid: nat :: (c, xid) in news <==> xid in Of(h, c).issued
  }

  lemma NewsGrow(news: seq<(nat, nat)>, h: map<nat, History>, c: nat, xid: nat, v: Verdict)
    requires NewsOk(news, h) && (v.New? ==> xid !in Of(h, c).issued)
    ensures NewsOk(if v.New? then news + [(c, xid)] else news, h[c := Asked(Of(h, c), xid, v)])
  {
    var news' := if v.New? then news + [(c, xid)] else news;
    var g := h[c := Asked(Of(h, c), xid, v)];
    forall d: nat, x: nat ensures (d, x) in news' <==> x in Of(g, d).issued {
      assert (d, x) in news <==> x in Of(h, d).issued;
    }
  }

  lemma AskNews(s: Instance, c: nat, xid: nat, rep: nat)
    requires InstanceInv(s) && c in s.tables.window
    ensures NewsOk(React(s, Ask(c, xid, rep)).news, React(s, Ask(c, xid, rep)).hist)
  {
    assert ClientOk(s.tables, s.hist, c);
    CheckVerdict(s.tables, s.hist, c, xid, rep);
    NewsGrow(s.news, s.hist, c, xid, Check(s.tables, c, xid, rep).1);
  }

  lemma AskKeeps(s: Instance, c: nat, xid: nat, rep: nat)
    requires InstanceInv(s) && c in s.tables.window
    ensures InstanceInv(React(s, Ask(c, xid, rep)))
  {
    CheckRefines(s.tables, s.hist, c, xid, rep);
    CheckConserves(s.tables, s.hist, c, xid, rep);
    AskNews(s, c, xid, rep);
  }

  lemma AnswerKeeps(s: Instance, c: nat, xid: nat, reply: Reply)
    requires InstanceInv(s) && Allowed(s, Answer(c, xid, reply))
    ensures Verified(s, Answer(c, xid, reply)) && InstanceInv(React(s, Answer(c, xid, reply)))
  {
    AddReplyRefines(s.tables, s.hist, c, xid, reply);
    AddReplyConserves(s.tables, s.hist, c, xid, reply);
    var s' := React(s, Answer(c, xid, reply));
    forall d: nat, x: nat ensures (d, x) in s'.news <==> x in Of(s'.hist, d).issued {
      assert Of(s'.hist, d).issued == Of(s.hist, d).issued;
    }
  }

  lemma ArriveKeeps(s: Instance, c: nat)
    requires InstanceInv(s)
    ensures InstanceInv(React(s, Arrive(c)))
  {
    var u := Admit(s.tables, c);
    forall d ensures ClientOk(u, s.hist, d) {
      assert ClientOk(s.tables, s.hist, d);
    }
    forall d, e ensures multiset(Window(u, d))[e] + u.freed[(d, e)] == Given(s.hist, d, e) {
      assert multiset(Window(s.tables, d))[e] + s.tables.freed[(d, e)] == Given(s.hist, d, e);
      assert Window(u, d) == Window(s.tables, d);
    }
  }

  /** What one checked request does to an instance, told without the tables. */
  ghost predicate AskEffect(s: Instance, s': Instance, c: nat, xid: nat, rep: nat, v: Verdict) {
    && (forall d :: d != c ==> Of(s'.hist, d) == Of(s.hist, d))
    && Of(s'.hist, c) == Asked(Of(s.hist, c), xid, v)
    && (v.New? ==> xid !in Of(s.hist, c).asked && xid !in Of(s.hist, c).issued)
    && (v.Done? ==> xid in Of(s.hist, c).replied && v.reply == Of(s.hist, c).replied[xid])
    && (forall d :: d in s'.tables.bound ==>
          (d == c && s'.tables.bound[d] == rep) || (d in s.tables.bound && s'.tables.bound[d] == s.tables.bound[d]))
  }

  lemma AskHasEffect(s: Instance, c: nat, xid: nat, rep: nat)
    requires InstanceInv(s) && c in s.tables.window
    ensures AskEffect(s, React(s, Ask(c, xid, rep)), c, xid, rep, Check(s.tables, c, xid, rep).1)
  {
    assert ClientOk(s.tables, s.hist, c);
    CheckVerdict(s.tables, s.hist, c, xid, rep);
  }

  ghost predicate AnswerEffect(s: Instance, s': Instance, c: nat, xid: nat, r: Reply) {
    && (forall d :: d != c ==> Of(s'.hist, d) == Of(s.hist, d))
    && Of(s'.hist, c) == Replied(Of(s.hist, c), xid, r)
    && s'.tables.bound == s.tables.bound
  }

  lemma AnswerHasEffect(s: Instance, c: nat, xid: nat, r: Reply)
    requires Verified(s, Answer(c, xid, r))
    ensures AnswerEffect(s, React(s, Answer(c, xid, r)), c, xid, r)
  {
  }

  lemma VerdictAboveBound(s: Instance, c: nat, xid: nat, rep: nat)
    requires InstanceInv(s) && c in s.tables.window && rep < xid && Bound(s.tables, c) < xid
    ensures Check(s.tables, c, xid, rep).1 == SpecVerdict(Of(s.hist, c), xid)
  {
    assert ClientOk(s.tables, s.hist, c);
    CheckVerdict(s.tables, s.hist, c, xid, rep);
  }

  lemma RepliedWasAsked(s: Instance, c: nat, xid: nat)
    requires InstanceInv(s) && xid in Of(s.hist, c).replied
    ensures xid in Of(s.hist, c).asked
  {
    assert ClientOk(s.tables, s.hist, c);
  }

  lemma FreshInv()
    ensures InstanceInv(FRESH)
  {
    assert forall c :: Of(map[], c) == BLANK;
    assert forall c :: ClientOk(EMPTY, map[], c);
  }

  /** A failed VERIFY aborts the process. */
  datatype ServerRun = Running(state: Instance) | Aborted

  ghost function After(es: seq<Event>): ServerRun {
    if es == [] then Running(FRESH)
    else
      match After(es[..|es| - 1])
      case Aborted => Aborted
      case Running(s) => if Verified(s, es[|es| - 1]) then Running(React(s, es[|es| - 1])) else Aborted
  }

  /** Every event was one that dispatch can bring about where it happened. */
  ghost predicate Legal(es: seq<Event>) {
    es == [] ||
    var before := After(es[..|es| - 1]);
    Legal(es[..|es| - 1]) && (before.Running? ==> Allowed(before.state, es[|es| - 1]))
  }

  /** Whatever xids and xid_reps arrive, and however late the replies are added:
      no VERIFY fails, each (client, xid) is answered New at most once, the tables
      refine the history, and every buffer is in one window or freed once. */
  lemma {:induction false} EveryRunIsAtMostOnce(es: seq<Event>)
    requires Legal(es)
    ensures After(es).Running? && InstanceInv(After(es).state)
  {
    if es == [] {
      FreshInv();
    } else {
      var init, last := es[..|es| - 1], es[|es| - 1];
      EveryRunIsAtMostOnce(init);
      var s := After(init).state;
      AllowedIsVerified(s, last);
      match last
      case Arrive(c) => ArriveKeeps(s, c);
      case Ask(c, xid, rep) => AskKeeps(s, c, xid, rep);
      case Answer(c, xid, reply) => AnswerKeeps(s, c, xid, reply);
    }
  }

  /** In every run each request drops and frees exactly the replies it acknowledges
      beyond the bound, and gets exactly the verdict it should. */
  lemma EveryCheckIsExact(es: seq<Event>, c: nat, xid: nat, rep: nat)
    requires Legal(es + [Ask(c, xid, rep)])
    ensures After(es).Running? && After(es + [Ask(c, xid, rep)]).Running?
    ensures var s, t := After(es).state, After(es + [Ask(c, xid, rep)]).state;
            && Checkable(s.tables, c) && Updated(s.tables, t.tables, c, xid, rep)
            && var v := Check(s.tables, c, xid, rep).1;
               && Answers(s.tables, c, xid, rep, v)
               && t.news == (if v.New? then s.news + [(c, xid)] else s.news)
  {
    var e := Ask(c, xid, rep);
    assert (es + [e])[..|es|] == es;
    EveryRunIsAtMostOnce(es);
    EveryRunIsAtMostOnce(es + [e]);
    var s := After(es).state;
    assert ClientOk(s.tables, s.hist, c);
    CheckUpdates(s.tables, c, xid, rep);
    CheckAnswers(s.tables, c, xid, rep);
  }

  // ----------------------------------------------------------- the server object

  lemma {:induction false} TaggedAppend(c: nat, w: seq<Entry>, e: Entry)
    ensures Tagged(c, w + [e]) == Tagged(c, w) + multiset{(c, e)}
  {
    if w == [] {
      assert w + [e] == [e] && [e][1..] == [];
    } else {
      TaggedAppend(c, w[1..], e);
      assert (w + [e])[1..] == w[1..] + [e];
    }
  }

  /** One more buffer freed. */
  lemma TaggedStep(c: nat, w: seq<Entry>, i: nat, freed: multiset<(nat, Entry)>, before: multiset<(nat, Entry)>)
    requires i < |w| && freed == before + Tagged(c, w[..i])
    ensures freed + multiset{(c, w[i])} == before + Tagged(c, w[..i + 1])
  {
    TaggedAppend(c, w[..i], w[i]);
    assert w[..i + 1] == w[..i] + [w[i]];
  }

  lemma {:induction false} TrimCountAt(w: seq<Entry>, rep: nat, n: nat)
    requires n <= |w| && forall i :: 0 <= i < n ==> w[i].xid < rep
    requires n < |w| ==> rep <= w[n].xid
    ensures TrimCount(w, rep) == n
  {
    if n > 0 {
      TrimCountAt(w[1..], rep, n - 1);
    }
  }

  lemma {:induction false} InsertEntryAt(w: seq<Entry>, e: Entry, at: nat)
    requires at <= |w| && forall j :: 0 <= j < at ==> w[j].xid < e.xid
    requires at < |w| ==> e.xid <= w[at].xid
    ensures InsertEntry(w, e) == w[..at] + [e] + w[at..]
  {
    if at == 0 {
      assert w[..0] + [e] + w[0..] == [e] + w;
    } else {
      InsertEntryAt(w[1..], e, at - 1);
      assert w[..at] == [w[0]] + w[1..][..at - 1] && w[at..] == w[1..][at - 1..];
    }
  }

  class Rpcs {
    var window: map<nat, seq<Entry>>
    var bound: map<nat, nat>
    var seen: map<nat, set<nat>>
    ghost var freed: multiset<(nat, Entry)>

    ghost function State(): Tables reads this { Tables(window, bound, seen, freed) }

    constructor ()
      ensures State() == EMPTY
    {
      window, bound, seen, freed := map[], map[], map[], multiset{};
    }

    method AdmitClient(c: nat)
      modifies this
      ensures State() == Admit(old(State()), c)
      ensures c in window && (c !in old(window) ==> window[c] == [])
      ensures forall d :: d in old(window) ==> d in window && window[d] == old(window)[d]
      ensures bound == old(bound) && seen == old(seen) && freed == old(freed)
    {
      if c !in window {
        window := window[c := []];
      }
    }

    /** The trim loop: pops and frees the front while it is below `rep`. */
    method TrimWindow(c: nat, rep: nat)
      requires c in window
      modifies this`window, this`freed
      ensures var n := TrimCount(old(window[c]), rep);
              && window == old(window)[c := old(window[c])[n..]]
              && freed == old(freed) + Tagged(c, old(window[c])[..n])
    {
      var list := window[c];
      ghost var all, n := list, 0;
      while |list| > 0 && list[0].xid < rep
        invariant window == old(window) && n <= |all| && list == all[n..]
        invariant forall i :: 0 <= i < n ==> all[i].xid < rep
        invariant freed == old(freed) + Tagged(c, all[..n])
        decreases |list|
      {
        TaggedStep(c, all, n, freed, old(freed));
        freed := freed + multiset{(c, list[0])};
        list := list[1..];
        n := n + 1;
      }
      TrimCountAt(all, rep, n);
      window := window[c := list];
    }

    method FindReply(c: nat, xid: nat) returns (found: Verdict)
      ensures found == Lookup(Window(State(), c), xid)
    {
      found := New;
      if c in window {
        var w := window[c];
        var i := 0;
        assert w[0..] == w;
        while i < |w|
          invariant 0 <= i <= |w| && found == New
          invariant Lookup(w, xid) == Lookup(w[i..], xid)
        {
          if w[i].xid == xid {
            return Done(w[i].reply);
          }
          assert w[i..][1..] == w[i + 1..];
          i := i + 1;
        }
      }
    }

    method RaiseBound(c: nat, rep: nat)
      requires Checkable(State(), c)
      modifies this
      ensures State() == Raise(old(State()), c, rep)
    {
      if c !in bound {
        bound := bound[c := rep];
      } else if bound[c] < rep {
        bound := bound[c := rep];
        TrimWindow(c, rep);
        if rep > 0 && rep in seen[c] {
          seen := seen[c := set x | x in seen[c] && rep <= x];
        } else {
          assert seen == seen[c := seen[c]];
        }
      }
    }

    method CheckDuplicateAndUpdate(c: nat, xid: nat, rep: nat) returns (v: Verdict)
      requires Checkable(State(), c)
      modifies this
      ensures (State(), v) == Check(old(State()), c, xid, rep)
    {
      RaiseBound(c, rep);
      ghost var u := State();
      var old_ := false;
      if c !in seen {
        seen := seen[c := {xid}];
        assert Seen(u, c) + {xid} == {xid};
      } else if xid !in seen[c] {
        seen := seen[c := seen[c] + {xid}];
      } else {
        old_ := true;
        assert seen[c] + {xid} == seen[c];
        assert seen == seen[c := seen[c] + {xid}];
      }
      v := FindReply(c, xid);
      if v.Done? {
      } else if old_ {
        v := InProgress;
      } else if xid <= bound[c] {
        v := Forgotten;
      } else {
        v := New;
      }
    }

    method SaveReply(c: nat, xid: nat, reply: Reply)
      requires Addable(State(), c, xid)
      modifies this
      ensures State() == AddReply(old(State()), c, xid, reply)
    {
      var w := window[c];
      var at := 0;
      while at < |w| && w[at].xid < xid
        invariant 0 <= at <= |w| && forall j :: 0 <= j < at ==> w[j].xid < xid
      {
        at := at + 1;
      }
      InsertEntryAt(w, Entry(xid, reply), at);
      window := window[c := w[..at] + [Entry(xid, reply)] + w[at..]];
    }

    method FreeClient(c: nat)
      requires c in window
      modifies this`window, this`freed
      ensures window == old(window) - {c}
      ensures freed == old(freed) + Tagged(c, old(window[c]))
    {
      var w := window[c];
      var i := 0;
      while i < |w|
        invariant 0 <= i <= |w| && window == old(window)
        invariant freed == old(freed) + Tagged(c, w[..i])
      {
        TaggedStep(c, w, i, freed, old(freed));
        freed := freed + multiset{(c, w[i])};
        i := i + 1;
      }
      assert w[..i] == w;
      window := window - {c};
    }

    /** The destructor frees every saved reply: afterwards each buffer ever given
        to add_reply has been freed exactly once. */
    method FreeReplyWindow(ghost h: map<nat, History>)
      requires Conserved(State(), h)
      modifies this
      ensures window == map[] && bound == old(bound) && seen == old(seen)
      ensures forall c, e :: freed[(c, e)] == Given(h, c, e)
    {
      while window.Keys != {}
        invariant bound == old(bound) && seen == old(seen)
        invariant Conserved(State(), h)
        decreases window.Keys
      {
        var c :| c in window.Keys;
        ghost var t := State();
        FreeClient(c);
        FreeingConserves(t, h, c, State());
      }
      forall c, e ensures freed[(c, e)] == Given(h, c, e) {
        assert Window(State(), c) == [];
      }
    }
  }

  lemma FreedCount(t: Tables, c: nat, e: Entry, u: Tables)
    requires c in t.window
    requires u == t.(window := t.window - {c}, freed := t.freed + Tagged(c, t.window[c]))
    ensures multiset(Window(u, c))[e] + u.freed[(c, e)] == multiset(Window(t, c))[e] + t.freed[(c, e)]
  {
    TaggedCount(c, t.window[c], c, e);
    assert Window(u, c) == [];
  }

  lemma OthersKept(t: Tables, c: nat, d: nat, e: Entry, u: Tables)
    requires c in t.window && d != c
    requires u == t.(window := t.window - {c}, freed := t.freed + Tagged(c, t.window[c]))
    ensures Window(u, d) == Window(t, d) && u.freed[(d, e)] == t.freed[(d, e)]
  {
    TaggedCount(c, t.window[c], d, e);
  }

  lemma FreeingConserves(t: Tables, h: map<nat, History>, c: nat, u: Tables)
    requires Conserved(t, h) && c in t.window
    requires u == t.(window := t.window - {c}, freed := t.freed + Tagged(c, t.window[c]))
    ensures Conserved(u, h)
  {
    forall d, e ensures multiset(Window(u, d))[e] + u.freed[(d, e)] == Given(h, d, e) {
      assert multiset(Window(t, d))[e] + t.freed[(d, e)] == Given(h, d, e);
      if d == c {
        FreedCount(t, c, e, u);
      } else {
        OthersKept(t, c, d, e, u);
      }
    }
  }
}
