/** The marshall and unmarshall objects: a growing write buffer and a read head,
    both proved against the wire format. */
module MarshallObjects {
  import opened Marshall

  const DEFAULT_SIZE := 1024

  lemma FirstEntry(t: Ty, ks: seq<Val>, ms: seq<Val>, i: nat, d: seq<Byte>)
    requires t.TMap? && i < |ks| == |ms|
    ensures d + (Encode(t.key, ks[i]) + Encode(t.val, ms[i])) + EncodePairs(t, ks[i + 1..], ms[i + 1..])
            == d + EncodePairs(t, ks[i..], ms[i..])
  {
  }

  lemma PackPrefix(all: seq<Byte>, ws: seq<nat>, n: nat)
    requires 4 + 4 * |ws| <= n <= |all|
    ensures PackHeader(all[..n], ws) == (all[..4] + Words(ws) + all[4 + 4 * |ws|..])[..n]
  {
    var w := Words(ws);
    Splice(all, w, 4 + |w|, n);
    assert all[..n][..4] == all[..4];
  }

  lemma Splice(all: seq<Byte>, w: seq<Byte>, k: nat, n: nat)
    requires 4 + |w| == k <= n <= |all|
    ensures all[..4] + w + all[..n][k..] == (all[..4] + w + all[k..])[..n]
  {
    var head := all[..4] + w;
    assert |head| == k && all[..n][k..] == all[k..][..n - k];
    Chop(head, all[k..], n);
  }

  lemma Chop(a: seq<Byte>, b: seq<Byte>, n: nat)
    requires |a| <= n <= |a| + |b|
    ensures (a + b)[..n] == a + b[..n - |a|]
  {
  }

  lemma Assoc(c: seq<Byte>, a: seq<Byte>, b: seq<Byte>)
    ensures (c + a) + b == c + (a + b)
  {
  }

  lemma FirstElement(t: Ty, vs: seq<Val>, i: nat, d: seq<Byte>)
    requires t.TVec? && i < |vs|
    ensures d + Encode(t.elem, vs[i]) + EncodeAll(t, vs[i + 1..]) == d + EncodeAll(t, vs[i..])
  {
  }

  class Writer {
    var buf: array<Byte>
    var ind: nat

    ghost predicate Valid() reads this { ind <= buf.Length && DEFAULT_SIZE <= buf.Length }

    ghost function Content(): seq<Byte>
      requires Valid()
      reads this, buf
    {
      buf[..ind]
    }

    constructor ()
      ensures Valid() && ind == HEADER && fresh(buf)
    {
      buf := new Byte[DEFAULT_SIZE](_ => 0);
      ind := HEADER;
    }

    /** realloc to a larger capacity. */
    method Grow(capacity: nat)
      requires Valid() && buf.Length <= capacity
      modifies this`buf
      ensures Valid() && fresh(buf) && buf.Length == capacity && ind == old(ind)
      ensures Content() == old(Content())
    {
      var bigger := new Byte[capacity](_ => 0);
      var i := 0;
      while i < ind
        invariant 0 <= i <= ind <= buf.Length <= bigger.Length && fresh(bigger)
        invariant buf == old(buf) && buf[..] == old(buf[..]) && bigger[..i] == buf[..i]
      {
        bigger[i] := buf[i];
        i := i + 1;
      }
      buf := bigger;
    }

    method RawByte(x: Byte)
      requires Valid()
      modifies this, buf
      ensures Valid() && ind == old(ind) + 1 && (buf == old(buf) || fresh(buf))
      ensures Content() == old(Content()) + [x]
      ensures old(ind) < old(buf.Length) ==> buf == old(buf) && buf[..] == old(buf[..])[old(ind) := x]
    {
      if ind >= buf.Length {
        Grow(2 * buf.Length);
      }
      buf[ind] := x;
      ind := ind + 1;
    }

    method RawBytes(p: seq<Byte>)
      requires Valid()
      modifies this, buf
      ensures Valid() && (buf == old(buf) || fresh(buf))
      ensures Content() == old(Content()) + p
    {
      if ind + |p| > buf.Length {
        Grow(if buf.Length > |p| then 2 * buf.Length else buf.Length + |p|);
      }
      ghost var before := Content();
      var i := 0;
      while i < |p|
        invariant 0 <= i <= |p| && ind == old(ind) && Valid() && ind + |p| <= buf.Length
        invariant buf[..ind + i] == before + p[..i]
        invariant buf == old(buf) || fresh(buf)
      {
        buf[ind + i] := p[i];
        i := i + 1;
        assert p[..i] == p[..i - 1] + [p[i - 1]];
      }
      ind := ind + |p|;
      assert p[..i] == p;
    }

    /** The low k bytes of n, most significant first. */
    method PutInt(n: nat, k: nat)
      requires Valid()
      modifies this, buf
      ensures Valid() && ind == old(ind) + k && (buf == old(buf) || fresh(buf))
      ensures Content() == old(Content()) + BE(n, k)
      ensures old(ind) + k <= old(buf.Length) ==>
                buf == old(buf) && buf[..] == old(buf[..ind]) + BE(n, k) + old(buf[ind + k..])
      decreases k
    {
      if k > 0 {
        PutInt(n / 256, k - 1);
        RawByte(n % 256);
      }
    }

    method PutValue(t: Ty, v: Val)
      requires Valid()
      modifies this, buf
      ensures Valid() && (buf == old(buf) || fresh(buf))
      ensures Content() == old(Content()) + Encode(t, v)
      decreases t, 2
    {
      match t
      case TStr => if v.VStr? { PutString(v.s); }
      case TVec(e) => if v.VVec? { PutVector(t, v.vs); }
      case TMap(k, m) => if v.VMap? && |v.ks| == |v.ms| { PutMap(t, v.ks, v.ms); }
      case _ => PutInt(ToBits(t, v), Width(t));
    }

    method PutString(s: seq<Byte>)
      requires Valid()
      modifies this, buf
      ensures Valid() && (buf == old(buf) || fresh(buf))
      ensures Content() == old(Content()) + (BE(|s|, 4) + s)
    {
      PutInt(|s|, 4);
      RawBytes(s);
    }

    method PutVector(t: Ty, vs: seq<Val>)
      requires Valid() && t.TVec?
      modifies this, buf
      ensures Valid() && (buf == old(buf) || fresh(buf))
      ensures Content() == old(Content()) + (BE(|vs|, 4) + EncodeAll(t, vs))
      decreases t, 1, 1
    {
      ghost var c := Content();
      PutInt(|vs|, 4);
      PutElements(t, vs);
      Assoc(c, BE(|vs|, 4), EncodeAll(t, vs));
    }

    method PutElements(t: Ty, vs: seq<Val>)
      requires Valid() && t.TVec?
      modifies this, buf
      ensures Valid() && (buf == old(buf) || fresh(buf))
      ensures Content() == old(Content()) + EncodeAll(t, vs)
      decreases t, 1, 0
    {
      var i := 0;
      assert vs[0..] == vs;
      while i < |vs|
        invariant 0 <= i <= |vs| && Valid() && (buf == old(buf) || fresh(buf))
        invariant Content() + EncodeAll(t, vs[i..]) == old(Content()) + EncodeAll(t, vs)
      {
        ghost var d := Content();
        PutValue(t.elem, vs[i]);
        FirstElement(t, vs, i, d);
        i := i + 1;
      }
      assert Content() + EncodeAll(t, vs[i..]) == Content();
    }

    method PutEntry(t: Ty, k: Val, m: Val)
      requires Valid() && t.TMap?
      modifies this, buf
      ensures Valid() && (buf == old(buf) || fresh(buf))
      ensures Content() == old(Content()) + (Encode(t.key, k) + Encode(t.val, m))
      decreases t, 0
    {
      ghost var c := Content();
      PutValue(t.key, k);
      PutValue(t.val, m);
      Assoc(c, Encode(t.key, k), Encode(t.val, m));
    }

    method PutMap(t: Ty, ks: seq<Val>, ms: seq<Val>)
      requires Valid() && t.TMap? && |ks| == |ms|
      modifies this, buf
      ensures Valid() && (buf == old(buf) || fresh(buf))
      ensures Content() == old(Content()) + (BE(|ks|, 4) + EncodePairs(t, ks, ms))
      decreases t, 1, 1
    {
      ghost var c := Content();
      PutInt(|ks|, 4);
      PutEntries(t, ks, ms);
      Assoc(c, BE(|ks|, 4), EncodePairs(t, ks, ms));
    }

    method PutEntries(t: Ty, ks: seq<Val>, ms: seq<Val>)
      requires Valid() && t.TMap? && |ks| == |ms|
      modifies this, buf
      ensures Valid() && (buf == old(buf) || fresh(buf))
      ensures Content() == old(Content()) + EncodePairs(t, ks, ms)
      decreases t, 1, 0
    {
      var i := 0;
      assert ks[0..] == ks && ms[0..] == ms;
      while i < |ks|
        invariant 0 <= i <= |ks| && Valid() && (buf == old(buf) || fresh(buf))
        invariant Content() + EncodePairs(t, ks[i..], ms[i..]) == old(Content()) + EncodePairs(t, ks, ms)
      {
        ghost var d := Content();
        PutEntry(t, ks[i], ms[i]);
        FirstEntry(t, ks, ms, i, d);
        i := i + 1;
      }
      assert Content() + EncodePairs(t, ks[i..], ms[i..]) == Content();
    }

    /** pack_req_header (five words) and pack_reply_header (two): the write head goes
        back to byte 4 and is restored afterwards. */
    method PackHeaderWords(ws: seq<nat>)
      requires Valid() && HEADER <= ind && |ws| <= 5
      modifies this`ind, buf
      ensures Valid() && ind == old(ind)
      ensures Content() == PackHeader(old(Content()), ws)
    {
      var saved := ind;
      ghost var all := buf[..];
      ind := 4;
      var i := 0;
      assert ws[0..] == ws;
      while i < |ws|
        invariant 0 <= i <= |ws| && buf == old(buf) && Valid() && ind == 4 + 4 * i
        invariant buf[..ind] + Words(ws[i..]) == all[..4] + Words(ws)
        invariant buf[ind..] == all[ind..]
      {
        assert ws[i..][1..] == ws[i + 1..];
        ghost var head, tail := buf[..ind], buf[ind..];
        Overwrite(ws[i]);
        assert buf[..ind] == head + BE(ws[i], 4) && buf[ind..] == tail[4..];
        i := i + 1;
      }
      assert buf[..ind] + Words(ws[i..]) == buf[..ind];
      assert buf[..] == buf[..ind] + buf[ind..];
      PackPrefix(all, ws, saved);
      ind := saved;
    }

    /** One header word inside the buffer, which never grows it. */
    method Overwrite(w: nat)
      requires Valid() && ind + 4 <= buf.Length
      modifies this`ind, buf
      ensures Valid() && buf == old(buf) && ind == old(ind) + 4
      ensures buf[..] == old(buf[..ind]) + BE(w, 4) + old(buf[ind + 4..])
    {
      var bytes := BE(w, 4);
      ghost var all := buf[..];
      buf[ind], buf[ind + 1], buf[ind + 2], buf[ind + 3] := bytes[0], bytes[1], bytes[2], bytes[3];
      ind := ind + 4;
      assert bytes == [bytes[0], bytes[1], bytes[2], bytes[3]];
    }
  }

  class Reader {
    const buf: seq<Byte>
    var ind: nat
    var ok: bool

    ghost function State(): Un reads this { Un(buf, ind, ok) }

    constructor (b: seq<Byte>)
      ensures State() == Un(b, 0, true)
    {
      buf, ind, ok := b, 0, true;
    }

    method NextByte() returns (b: Byte)
      modifies this
      ensures (b, State()) == RawByte(old(State()))
    {
      b := 0;
      if ind >= |buf| {
        ok := false;
      } else {
        b := buf[ind];
        ind := ind + 1;
      }
    }

    method GetInt(k: nat) returns (n: nat)
      modifies this
      ensures (n, State()) == ReadBE(old(State()), k)
    {
      n := 0;
      var i := 0;
      while i < k
        invariant 0 <= i <= k && (n, State()) == ReadBE(old(State()), i)
      {
        var b := NextByte();
        n := 256 * n + b;
        i := i + 1;
      }
    }

    method GetBytes(n: nat) returns (s: seq<Byte>)
      modifies this
      ensures (s, State()) == RawBytes(old(State()), n)
    {
      s := [];
      if ind + n > |buf| {
        ok := false;
      } else {
        s := buf[ind..ind + n];
        ind := ind + n;
      }
    }

    method GetValue(t: Ty, lt: (Val, Val) -> bool) returns (v: Val)
      modifies this
      ensures (v, State()) == Decode(t, old(State()), lt)
      decreases t, 2
    {
      match t
      case TStr =>
        v := VStr([]);
        var n := GetInt(4);
        if ok {
          var s := GetBytes(n);
          v := VStr(s);
        }
      case TVec(e) =>
        var n := GetInt(4);
        var vs := GetElements(t, n, lt);
        v := VVec(vs);
      case TMap(k, m) =>
        var n := GetInt(4);
        var ks, ms := GetEntries(t, n, lt);
        v := VMap(ks, ms);
      case _ =>
        var bits := GetInt(Width(t));
        v := FromBits(t, bits);
    }

    method GetElements(t: Ty, n: nat, lt: (Val, Val) -> bool) returns (vs: seq<Val>)
      requires t.TVec?
      modifies this
      ensures (vs, State()) == DecodeAll(t, old(State()), n, lt)
      decreases t, 1
    {
      vs := [];
      ghost var (all, end) := DecodeAll(t, State(), n, lt);
      var i := 0;
      assert [] + all == all;
      while i < n
        invariant 0 <= i <= n
        invariant (all, end) == (vs + DecodeAll(t, State(), n - i, lt).0, DecodeAll(t, State(), n - i, lt).1)
      {
        ghost var rest := DecodeAll(t, State(), n - i, lt).0;
        ghost var got := vs;
        var z := GetValue(t.elem, lt);
        vs := vs + [z];
        assert got + rest == vs + DecodeAll(t, State(), n - i - 1, lt).0;
        i := i + 1;
      }
      assert vs + [] == vs;
    }

    method GetEntries(t: Ty, n: nat, lt: (Val, Val) -> bool) returns (ks: seq<Val>, ms: seq<Val>)
      requires t.TMap?
      modifies this
      ensures |ks| == |ms| && (ks, ms, State()) == DecodePairs(t, old(State()), n, [], [], lt)
      decreases t, 1
    {
      ks, ms := [], [];
      var i := 0;
      while i < n
        invariant 0 <= i <= n && |ks| == |ms|
        invariant DecodePairs(t, State(), n - i, ks, ms, lt) == DecodePairs(t, old(State()), n, [], [], lt)
      {
        var a := GetValue(t.key, lt);
        var b := GetValue(t.val, lt);
        var (ks', ms') := Put(ks, ms, a, b, lt);
        ks, ms := ks', ms';
        i := i + 1;
      }
    }
  }
}
