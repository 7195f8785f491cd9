/** The wire format: scalars big-endian, strings, vectors and maps with a 32-bit
    length in front, after a 24-byte header.  The decoder never stops early: at the
    end of the buffer it yields zeros and clears its ok flag for good. */
module Marshall {
  type Byte = b: nat | b < 256

  const HEADER := 24
  const WORD := 0x1_0000_0000

  /** The C++ types the templates are used with. */
  datatype Ty = TBool | TU8 | TI8 | TU16 | TI16 | TU32 | TI32 | TU64 | TStr
              | TVec(elem: Ty) | TMap(key: Ty, val: Ty)

  /** A map is its entries in iteration order, keys and values side by side. */
  datatype Val = VBool(b: bool) | VInt(n: int) | VStr(s: seq<Byte>)
               | VVec(vs: seq<Val>) | VMap(ks: seq<Val>, ms: seq<Val>)

  // ------------------------------------------------------------------ integers

  function Pow256(k: nat): (p: nat)
    ensures p >= 1
  {
    if k == 0 then 1 else 256 * Pow256(k - 1)
  }

  /** The low `k` bytes of `n`, most significant first. */
  function BE(n: nat, k: nat): (r: seq<Byte>)
    ensures |r| == k
  {
    if k == 0 then [] else BE(n / 256, k - 1) + [n % 256]
  }

  function FromBE(bs: seq<Byte>): nat {
    if bs == [] then 0 else 256 * FromBE(bs[..|bs| - 1]) + bs[|bs| - 1]
  }

  lemma {:induction false} BERoundTrip(n: nat, k: nat)
    requires n < Pow256(k)
    ensures FromBE(BE(n, k)) == n
  {
    if k > 0 {
      BERoundTrip(n / 256, k - 1);
      assert BE(n, k)[..k - 1] == BE(n / 256, k - 1);
    }
  }

  lemma BEShort(n: nat)
    ensures BE(n, 2) == [n / 0x100 % 256, n % 256]
  {
    BEEnd(n, 2);
  }

  lemma Shifts(n: nat)
    ensures n / 0x1_0000 / 0x100 == n / 0x100_0000
  {
  }

  /** The bytes in the order the source's shifts put them, highest first; 64 bits go out
      as two words. */
  lemma BigEndian(n: nat)
    ensures BE(n, 2) == [n / 0x100 % 256, n % 256]
    ensures BE(n, 4) == [n / 0x100_0000 % 256, n / 0x1_0000 % 256] + [n / 0x100 % 256, n % 256]
    ensures BE(n, 8) == BE(n / WORD, 4) + BE(n, 4)
  {
    BEShort(n);
    BEEnd(n, 4);
    BEShort(n / 0x1_0000);
    Shifts(n);
    BETail(n, 4);
  }

  lemma BEEnd(n: nat, k: nat)
    requires k >= 2
    ensures BE(n, k) == BE(n / 0x1_0000, k - 2) + [n / 0x100 % 256, n % 256]
  {
    assert n / 256 / 256 == n / 0x1_0000;
    assert BE(n, k) == BE(n / 256, k - 1) + [n % 256];
    assert BE(n / 256, k - 1) == BE(n / 256 / 256, k - 2) + [n / 256 % 256];
  }

  lemma BETail(n: nat, k: nat)
    ensures BE(n, k + 4) == BE(n / WORD, k) + BE(n, 4)
  {
    BEEnd(n, k + 4);
    BEEnd(n / 0x1_0000, k + 2);
    BEEnd(n, 4);
    BEEnd(n / 0x1_0000, 2);
    assert n / 0x1_0000 / 0x1_0000 == n / WORD;
    assert BE(n / WORD, 0) == [];
  }

  function Width(t: Ty): nat {
    match t
    case TBool => 1 case TU8 => 1 case TI8 => 1
    case TU16 => 2 case TI16 => 2
    case TU32 => 4 case TI32 => 4
    case TU64 => 8
    case _ => 0
  }

  /** 256 to the width; the bool byte needs no casts. */
  function Modulus(t: Ty): (p: nat)
    ensures p >= 1
  {
    match t
    case TU8 => 0x100 case TI8 => 0x100
    case TU16 => 0x1_0000 case TI16 => 0x1_0000
    case TU32 => WORD case TI32 => WORD
    case TU64 => 0x1_0000_0000_0000_0000
    case _ => 2
  }

  predicate Scalar(t: Ty) { !t.TStr? && !t.TVec? && !t.TMap? }
  predicate Signed(t: Ty) { t.TI8? || t.TI16? || t.TI32? }

  /** The casts between a value and its bit pattern. */
  function ToBits(t: Ty, v: Val): nat {
    match v
    case VBool(b) => if b then 1 else 0
    case VInt(n) => if n < 0 <= n + Modulus(t) then n + Modulus(t) else if n < 0 then 0 else n
    case _ => 0
  }

  function FromBits(t: Ty, bits: nat): Val {
    if t.TBool? then VBool(bits != 0)
    else if Signed(t) && 2 * bits >= Modulus(t) then VInt(bits - Modulus(t))
    else VInt(bits)
  }

  predicate InRange(t: Ty, n: int) {
    if Signed(t) then 0 <= 2 * n + Modulus(t) < 2 * Modulus(t) else 0 <= n < Modulus(t)
  }

  /** The bits are the number modulo 2 to the width, and read back as the number. */
  lemma BitsRoundTrip(t: Ty, v: Val)
    requires Scalar(t) && if t.TBool? then v.VBool? else v.VInt? && InRange(t, v.n)
    ensures ToBits(t, v) < Modulus(t) && FromBits(t, ToBits(t, v)) == v
    ensures ToBits(t, v) == if t.TBool? then (if v.b then 1 else 0) else v.n % Modulus(t)
  {
  }

  lemma ModulusIsPower(t: Ty)
    requires Scalar(t)
    ensures Modulus(t) <= Pow256(Width(t))
  {
    assert Pow256(1) == 256 * Pow256(0);
    assert Pow256(2) == 256 * Pow256(1);
    assert Pow256(3) == 256 * Pow256(2);
    assert Pow256(4) == 256 * Pow256(3);
    assert Pow256(5) == 256 * Pow256(4);
    assert Pow256(6) == 256 * Pow256(5);
    assert Pow256(7) == 256 * Pow256(6);
    assert Pow256(8) == 256 * Pow256(7);
  }

  // ------------------------------------------------------------------ encoding

  predicate Ascending(ks: seq<Val>, lt: (Val, Val) -> bool) {
    forall i, j :: 0 <= i < j < |ks| ==> lt(ks[i], ks[j])
  }

  predicate AllTyped(t: Ty, vs: seq<Val>, lt: (Val, Val) -> bool)
    decreases t, 1
  {
    forall i :: 0 <= i < |vs| ==> HasType(t, vs[i], lt)
  }

  /** `v` is a value of type `t`; `lt` is the order of the map keys. */
  predicate HasType(t: Ty, v: Val, lt: (Val, Val) -> bool)
    decreases t, 0
  {
    match t
    case TBool => v.VBool?
    case TStr => v.VStr? && |v.s| < WORD
    case TVec(e) => v.VVec? && |v.vs| < WORD && AllTyped(e, v.vs, lt)
    case TMap(k, m) =>
      && v.VMap? && |v.ks| == |v.ms| < WORD
      && AllTyped(k, v.ks, lt) && AllTyped(m, v.ms, lt) && Ascending(v.ks, lt)
    case _ => v.VInt? && InRange(t, v.n)
  }

  function Encode(t: Ty, v: Val): seq<Byte>
    decreases t, 2
  {
    match t
    case TStr => if v.VStr? then BE(|v.s|, 4) + v.s else []
    case TVec(e) => if v.VVec? then BE(|v.vs|, 4) + EncodeAll(t, v.vs) else []
    case TMap(k, m) => if v.VMap? && |v.ks| == |v.ms| then BE(|v.ks|, 4) + EncodePairs(t, v.ks, v.ms) else []
    case _ => BE(ToBits(t, v), Width(t))
  }

  function EncodeAll(t: Ty, vs: seq<Val>): seq<Byte>
    requires t.TVec?
    decreases t, 1, |vs|
  {
    if vs == [] then [] else Encode(t.elem, vs[0]) + EncodeAll(t, vs[1..])
  }

  function EncodePairs(t: Ty, ks: seq<Val>, ms: seq<Val>): seq<Byte>
    requires t.TMap? && |ks| == |ms|
    decreases t, 1, |ks|
  {
    if ks == [] then [] else Encode(t.key, ks[0]) + Encode(t.val, ms[0]) + EncodePairs(t, ks[1..], ms[1..])
  }

  // ------------------------------------------------------------------ decoding

  datatype Un = Un(buf: seq<Byte>, ind: nat, ok: bool)

  predicate OkDone(u: Un) { u.ok && u.ind == |u.buf| }

  function RawByte(u: Un): (Byte, Un) {
    if u.ind >= |u.buf| then (0, u.(ok := false)) else (u.buf[u.ind], u.(ind := u.ind + 1))
  }

  function ReadBE(u: Un, k: nat): (nat, Un) {
    if k == 0 then (0, u)
    else
      var (high, w) := ReadBE(u, k - 1);
      var (b, x) := RawByte(w);
      (256 * high + b, x)
  }

  function RawBytes(u: Un, n: nat): (seq<Byte>, Un) {
    if u.ind + n > |u.buf| then ([], u.(ok := false))
    else (u.buf[u.ind..u.ind + n], u.(ind := u.ind + n))
  }

  /** d[k] = m on a map held as entries in key order. */
  function Put(ks: seq<Val>, ms: seq<Val>, k: Val, m: Val, lt: (Val, Val) -> bool): (r: (seq<Val>, seq<Val>))
    requires |ks| == |ms|
    ensures |r.0| == |r.1|
  {
    if ks == [] then ([k], [m])
    else if lt(ks[0], k) then
      var (ks', ms') := Put(ks[1..], ms[1..], k, m, lt);
      ([ks[0]] + ks', [ms[0]] + ms')
    else if lt(k, ks[0]) then ([k] + ks, [m] + ms)
    else (ks, [m] + ms[1..])
  }

  function Decode(t: Ty, u: Un, lt: (Val, Val) -> bool): (Val, Un)
    decreases t, 2
  {
    match t
    case TStr =>
      var (n, w) := ReadBE(u, 4);
      if w.ok then var (s, x) := RawBytes(w, n); (VStr(s), x) else (VStr([]), w)
    case TVec(e) =>
      var (n, w) := ReadBE(u, 4);
      var (vs, x) := DecodeAll(t, w, n, lt);
      (VVec(vs), x)
    case TMap(k, m) =>
      var (n, w) := ReadBE(u, 4);
      var (ks, ms, x) := DecodePairs(t, w, n, [], [], lt);
      (VMap(ks, ms), x)
    case _ =>
      var (bits, w) := ReadBE(u, Width(t));
      (FromBits(t, bits), w)
  }

  function DecodeAll(t: Ty, u: Un, n: nat, lt: (Val, Val) -> bool): (seq<Val>, Un)
    requires t.TVec?
    decreases t, 1, n
  {
    if n == 0 then ([], u)
    else
      var (v, w) := Decode(t.elem, u, lt);
      var (vs, x) := DecodeAll(t, w, n - 1, lt);
      ([v] + vs, x)
  }

  function DecodePairs(t: Ty, u: Un, n: nat, ks: seq<Val>, ms: seq<Val>, lt: (Val, Val) -> bool): (seq<Val>, seq<Val>, Un)
    requires t.TMap? && |ks| == |ms|
    decreases t, 1, n
  {
    if n == 0 then (ks, ms, u)
    else
      var (k, w) := Decode(t.key, u, lt);
      var (m, x) := Decode(t.val, w, lt);
      var (ks', ms') := Put(ks, ms, k, m, lt);
      DecodePairs(t, x, n - 1, ks', ms', lt)
  }

  // ---------------------------------------------------------------- round trip

  /** The bytes `bs` come next. */
  predicate Ahead(u: Un, bs: seq<Byte>) {
    u.ok && u.ind + |bs| <= |u.buf| && u.buf[u.ind..u.ind + |bs|] == bs
  }

  function Skip(u: Un, n: nat): Un { u.(ind := u.ind + n) }

  lemma AheadSplit(u: Un, a: seq<Byte>, b: seq<Byte>)
    requires Ahead(u, a + b)
    ensures Ahead(u, a) && Ahead(Skip(u, |a|), b)
  {
    assert a == (a + b)[..|a|] && b == (a + b)[|a|..];
    assert u.buf[u.ind..u.ind + |a|] == u.buf[u.ind..u.ind + |a + b|][..|a|];
    assert u.buf[u.ind + |a|..u.ind + |a + b|] == u.buf[u.ind..u.ind + |a + b|][|a|..];
  }

  lemma {:induction false} ReadBEAhead(u: Un, n: nat, k: nat)
    requires Ahead(u, BE(n, k)) && n < Pow256(k)
    ensures ReadBE(u, k) == (n, Skip(u, k))
  {
    if k > 0 {
      AheadSplit(u, BE(n / 256, k - 1), [n % 256]);
      ReadBEAhead(u, n / 256, k - 1);
      assert u.buf[u.ind + k - 1..u.ind + k][0] == u.buf[u.ind + k - 1];
    }
  }

  lemma LengthAhead(u: Un, n: nat)
    requires Ahead(u, BE(n, 4)) && n < WORD
    ensures ReadBE(u, 4) == (n, Skip(u, 4))
  {
    ModulusIsPower(TU32);
    ReadBEAhead(u, n, 4);
  }

  lemma DecodeEncodeScalar(t: Ty, v: Val, u: Un, lt: (Val, Val) -> bool)
    requires Scalar(t) && HasType(t, v, lt) && Ahead(u, Encode(t, v))
    ensures Decode(t, u, lt) == (v, Skip(u, |Encode(t, v)|))
  {
    BitsRoundTrip(t, v);
    ModulusIsPower(t);
    ReadBEAhead(u, ToBits(t, v), Width(t));
  }

  lemma DecodeEncodeStr(s: seq<Byte>, u: Un, lt: (Val, Val) -> bool)
    requires |s| < WORD && Ahead(u, Encode(TStr, VStr(s)))
    ensures Decode(TStr, u, lt) == (VStr(s), Skip(u, |Encode(TStr, VStr(s))|))
  {
    AheadSplit(u, BE(|s|, 4), s);
    LengthAhead(u, |s|);
  }

  /** Decoding an encoded value gives it back and stops exactly at its end. */
  lemma {:induction false} DecodeEncode(t: Ty, v: Val, u: Un, lt: (Val, Val) -> bool)
    requires HasType(t, v, lt) && Ahead(u, Encode(t, v))
    ensures Decode(t, u, lt) == (v, Skip(u, |Encode(t, v)|))
    decreases t, 2
  {
    if Scalar(t) {
      DecodeEncodeScalar(t, v, u, lt);
    } else if t.TStr? {
      DecodeEncodeStr(v.s, u, lt);
    } else if t.TVec? {
      DecodeEncodeVec(t, v.vs, u, lt);
    } else {
      DecodeEncodeMap(t, v.ks, v.ms, u, lt);
    }
  }

  lemma {:induction false} DecodeEncodeVec(t: Ty, vs: seq<Val>, u: Un, lt: (Val, Val) -> bool)
    requires t.TVec? && |vs| < WORD && AllTyped(t.elem, vs, lt)
    requires Ahead(u, BE(|vs|, 4) + EncodeAll(t, vs))
    ensures Decode(t, u, lt) == (VVec(vs), Skip(u, 4 + |EncodeAll(t, vs)|))
    decreases t, 1, |vs| + 1
  {
    AheadSplit(u, BE(|vs|, 4), EncodeAll(t, vs));
    LengthAhead(u, |vs|);
    DecodeEncodeAll(t, vs, Skip(u, 4), lt);
  }

  lemma {:induction false} DecodeEncodeMap(t: Ty, ks: seq<Val>, ms: seq<Val>, u: Un, lt: (Val, Val) -> bool)
    requires t.TMap? && |ks| == |ms| < WORD && Ahead(u, BE(|ks|, 4) + EncodePairs(t, ks, ms))
    requires AllTyped(t.key, ks, lt) && AllTyped(t.val, ms, lt) && Ascending(ks, lt)
    ensures Decode(t, u, lt) == (VMap(ks, ms), Skip(u, 4 + |EncodePairs(t, ks, ms)|))
    decreases t, 1, |ks| + 1
  {
    AheadSplit(u, BE(|ks|, 4), EncodePairs(t, ks, ms));
    LengthAhead(u, |ks|);
    assert ks[0..] == ks && ms[0..] == ms && ks[..0] == [] && ms[..0] == [];
    DecodeEncodePairs(t, ks, ms, 0, Skip(u, 4), lt);
  }

  lemma {:induction false} DecodeEncodeAll(t: Ty, vs: seq<Val>, u: Un, lt: (Val, Val) -> bool)
    requires t.TVec? && AllTyped(t.elem, vs, lt) && Ahead(u, EncodeAll(t, vs))
    ensures DecodeAll(t, u, |vs|, lt) == (vs, Skip(u, |EncodeAll(t, vs)|))
    decreases t, 1, |vs|
  {
    if vs != [] {
      var e := Encode(t.elem, vs[0]);
      AheadSplit(u, e, EncodeAll(t, vs[1..]));
      DecodeEncode(t.elem, vs[0], u, lt);
      DecodeEncodeAll(t, vs[1..], Skip(u, |e|), lt);
      assert vs == [vs[0]] + vs[1..];
    }
  }

  lemma {:induction false} PutLast(ks: seq<Val>, ms: seq<Val>, k: Val, m: Val, lt: (Val, Val) -> bool)
    requires |ks| == |ms| && forall i :: 0 <= i < |ks| ==> lt(ks[i], k)
    ensures Put(ks, ms, k, m, lt) == (ks + [k], ms + [m])
  {
    if ks == [] {
      assert ks + [k] == [k] && ms + [m] == [m];
    } else {
      assert lt(ks[0], k);
      PutLast(ks[1..], ms[1..], k, m, lt);
      assert ks + [k] == [ks[0]] + (ks[1..] + [k]) && ms + [m] == [ms[0]] + (ms[1..] + [m]);
    }
  }

  lemma PutNext(ks: seq<Val>, ms: seq<Val>, i: nat, lt: (Val, Val) -> bool)
    requires i < |ks| == |ms| && Ascending(ks, lt)
    ensures Put(ks[..i], ms[..i], ks[i], ms[i], lt) == (ks[..i + 1], ms[..i + 1])
  {
    PutLast(ks[..i], ms[..i], ks[i], ms[i], lt);
    assert ks[..i + 1] == ks[..i] + [ks[i]] && ms[..i + 1] == ms[..i] + [ms[i]];
  }

  lemma EntryAhead(t: Ty, ks: seq<Val>, ms: seq<Val>, i: nat, u: Un)
    requires t.TMap? && i < |ks| == |ms| && Ahead(u, EncodePairs(t, ks[i..], ms[i..]))
    ensures var a, b := Encode(t.key, ks[i]), Encode(t.val, ms[i]);
            && Ahead(u, a) && Ahead(Skip(u, |a|), b)
            && Ahead(Skip(Skip(u, |a|), |b|), EncodePairs(t, ks[i + 1..], ms[i + 1..]))
            && |EncodePairs(t, ks[i..], ms[i..])| == |a| + |b| + |EncodePairs(t, ks[i + 1..], ms[i + 1..])|
  {
    var a, b, rest := Encode(t.key, ks[i]), Encode(t.val, ms[i]), EncodePairs(t, ks[i + 1..], ms[i + 1..]);
    assert ks[i..][1..] == ks[i + 1..] && ms[i..][1..] == ms[i + 1..];
    assert EncodePairs(t, ks[i..], ms[i..]) == a + b + rest;
    AheadSplit(u, a + b, rest);
    AheadSplit(u, a, b);
  }

  lemma DecodePairsStep(t: Ty, u: Un, n: nat, ks: seq<Val>, ms: seq<Val>, k: Val, m: Val, w: Un, x: Un,
                        lt: (Val, Val) -> bool)
    requires t.TMap? && |ks| == |ms| && n > 0
    requires Decode(t.key, u, lt) == (k, w) && Decode(t.val, w, lt) == (m, x)
    ensures var (ks', ms') := Put(ks, ms, k, m, lt);
            DecodePairs(t, u, n, ks, ms, lt) == DecodePairs(t, x, n - 1, ks', ms', lt)
  {
  }

  /** The entries from `i` on, with the first `i` already in the map. */
  lemma {:induction false} DecodeEncodePairs(t: Ty, ks: seq<Val>, ms: seq<Val>, i: nat, u: Un, lt: (Val, Val) -> bool)
    requires t.TMap? && i <= |ks| == |ms| && Ahead(u, EncodePairs(t, ks[i..], ms[i..]))
    requires AllTyped(t.key, ks, lt) && AllTyped(t.val, ms, lt) && Ascending(ks, lt)
    ensures DecodePairs(t, u, |ks| - i, ks[..i], ms[..i], lt)
            == (ks, ms, Skip(u, |EncodePairs(t, ks[i..], ms[i..])|))
    decreases t, 1, |ks| - i
  {
    if i == |ks| {
      assert ks[..i] == ks && ms[..i] == ms;
    } else {
      var a, b := Encode(t.key, ks[i]), Encode(t.val, ms[i]);
      EntryAhead(t, ks, ms, i, u);
      DecodeEncode(t.key, ks[i], u, lt);
      DecodeEncode(t.val, ms[i], Skip(u, |a|), lt);
      PutNext(ks, ms, i, lt);
      DecodePairsStep(t, u, |ks| - i, ks[..i], ms[..i], ks[i], ms[i], Skip(u, |a|), Skip(Skip(u, |a|), |b|), lt);
      DecodeEncodePairs(t, ks, ms, i + 1, Skip(Skip(u, |a|), |b|), lt);
    }
  }

  // ------------------------------------------------------------------ prefixes

  function Ext(u: Un, more: seq<Byte>): Un { u.(buf := u.buf + more) }

  /** A read that ends ok was ok all along and would have gone the same way in a
      longer buffer. */
  lemma {:induction false} ReadBEExt(u: Un, k: nat, more: seq<Byte>)
    ensures ReadBE(u, k).1.buf == u.buf
    ensures ReadBE(u, k).1.ok ==> u.ok && ReadBE(Ext(u, more), k) == (ReadBE(u, k).0, Ext(ReadBE(u, k).1, more))
  {
    if k > 0 {
      ReadBEExt(u, k - 1, more);
    }
  }

  lemma RawBytesExt(u: Un, n: nat, more: seq<Byte>)
    ensures RawBytes(u, n).1.buf == u.buf
    ensures RawBytes(u, n).1.ok ==> u.ok && RawBytes(Ext(u, more), n) == (RawBytes(u, n).0, Ext(RawBytes(u, n).1, more))
  {
    if u.ind + n <= |u.buf| {
      assert (u.buf + more)[u.ind..u.ind + n] == u.buf[u.ind..u.ind + n];
    }
  }

  lemma {:induction false} DecodeExt(t: Ty, u: Un, more: seq<Byte>, lt: (Val, Val) -> bool)
    ensures Decode(t, u, lt).1.buf == u.buf
    ensures Decode(t, u, lt).1.ok ==>
              u.ok && Decode(t, Ext(u, more), lt) == (Decode(t, u, lt).0, Ext(Decode(t, u, lt).1, more))
    decreases t, 2
  {
    if Scalar(t) {
      ReadBEExt(u, Width(t), more);
    } else {
      ReadBEExt(u, 4, more);
      var (n, w) := ReadBE(u, 4);
      if t.TStr? {
        RawBytesExt(w, n, more);
      } else if t.TVec? {
        DecodeAllExt(t, w, n, more, lt);
      } else {
        DecodePairsExt(t, w, n, [], [], more, lt);
      }
    }
  }

  lemma {:induction false} DecodeAllExt(t: Ty, u: Un, n: nat, more: seq<Byte>, lt: (Val, Val) -> bool)
    requires t.TVec?
    ensures DecodeAll(t, u, n, lt).1.buf == u.buf
    ensures DecodeAll(t, u, n, lt).1.ok ==>
              u.ok && DecodeAll(t, Ext(u, more), n, lt) == (DecodeAll(t, u, n, lt).0, Ext(DecodeAll(t, u, n, lt).1, more))
    decreases t, 1, n
  {
    if n > 0 {
      DecodeExt(t.elem, u, more, lt);
      DecodeAllExt(t, Decode(t.elem, u, lt).1, n - 1, more, lt);
    }
  }

  lemma {:induction false} DecodePairsExt(t: Ty, u: Un, n: nat, ks: seq<Val>, ms: seq<Val>, more: seq<Byte>, lt: (Val, Val) -> bool)
    requires t.TMap? && |ks| == |ms|
    ensures var r, e := DecodePairs(t, u, n, ks, ms, lt), DecodePairs(t, Ext(u, more), n, ks, ms, lt);
            r.2.buf == u.buf && (r.2.ok ==> u.ok && e == (r.0, r.1, Ext(r.2, more)))
    decreases t, 1, n
  {
    if n > 0 {
      var (k, w) := Decode(t.key, u, lt);
      var (m, x) := Decode(t.val, w, lt);
      var (ks', ms') := Put(ks, ms, k, m, lt);
      DecodeExt(t.key, u, more, lt);
      DecodeExt(t.val, w, more, lt);
      DecodePairsExt(t, x, n - 1, ks', ms', more, lt);
    }
  }

  // ------------------------------------------------------------- whole messages

  /** The arguments of a call, one after the other. */
  function EncodeArgs(ts: seq<Ty>, vs: seq<Val>): seq<Byte>
    requires |ts| == |vs|
  {
    if ts == [] then [] else Encode(ts[0], vs[0]) + EncodeArgs(ts[1..], vs[1..])
  }

  function DecodeArgs(ts: seq<Ty>, u: Un, lt: (Val, Val) -> bool): (seq<Val>, Un) {
    if ts == [] then ([], u)
    else
      var (v, w) := Decode(ts[0], u, lt);
      var (vs, x) := DecodeArgs(ts[1..], w, lt);
      ([v] + vs, x)
  }

  predicate ArgsTyped(ts: seq<Ty>, vs: seq<Val>, lt: (Val, Val) -> bool) {
    |ts| == |vs| && forall i :: 0 <= i < |ts| ==> HasType(ts[i], vs[i], lt)
  }

  lemma {:induction false} DecodeEncodeArgs(ts: seq<Ty>, vs: seq<Val>, u: Un, lt: (Val, Val) -> bool)
    requires ArgsTyped(ts, vs, lt) && Ahead(u, EncodeArgs(ts, vs))
    ensures DecodeArgs(ts, u, lt) == (vs, Skip(u, |EncodeArgs(ts, vs)|))
  {
    if ts != [] {
      AheadSplit(u, Encode(ts[0], vs[0]), EncodeArgs(ts[1..], vs[1..]));
      DecodeEncode(ts[0], vs[0], u, lt);
      DecodeEncodeArgs(ts[1..], vs[1..], Skip(u, |Encode(ts[0], vs[0])|), lt);
      assert vs == [vs[0]] + vs[1..];
    }
  }

  lemma {:induction false} DecodeArgsExt(ts: seq<Ty>, u: Un, more: seq<Byte>, lt: (Val, Val) -> bool)
    ensures DecodeArgs(ts, u, lt).1.buf == u.buf
    ensures DecodeArgs(ts, u, lt).1.ok ==>
              u.ok && DecodeArgs(ts, Ext(u, more), lt) == (DecodeArgs(ts, u, lt).0, Ext(DecodeArgs(ts, u, lt).1, more))
  {
    if ts != [] {
      DecodeExt(ts[0], u, more, lt);
      DecodeArgsExt(ts[1..], Decode(ts[0], u, lt).1, more, lt);
    }
  }

  /** The header words of a request or a reply go to bytes 4.. of the buffer; the
      first four bytes are for the channel. */
  function Words(ws: seq<nat>): (r: seq<Byte>)
    ensures |r| == 4 * |ws|
  {
    if ws == [] then [] else BE(ws[0], 4) + Words(ws[1..])
  }

  function PackHeader(buf: seq<Byte>, ws: seq<nat>): seq<Byte>
    requires 4 + 4 * |ws| <= |buf|
  {
    buf[..4] + Words(ws) + buf[4 + 4 * |ws|..]
  }

  function UnpackWords(u: Un, n: nat): (seq<nat>, Un)
    decreases n
  {
    if n == 0 then ([], u)
    else
      var (w, x) := ReadBE(u, 4);
      var (ws, y) := UnpackWords(x, n - 1);
      ([w] + ws, y)
  }

  /** unpack_req_header and unpack_reply_header: n words from byte 4 on, then the
      read head jumps to the payload. */
  function UnpackHeader(u: Un, n: nat): (seq<nat>, Un) {
    var (ws, w) := UnpackWords(u.(ind := 4), n);
    (ws, w.(ind := HEADER))
  }

  lemma {:induction false} UnpackWordsAhead(u: Un, ws: seq<nat>)
    requires Ahead(u, Words(ws)) && forall i :: 0 <= i < |ws| ==> ws[i] < WORD
    ensures UnpackWords(u, |ws|) == (ws, Skip(u, 4 * |ws|))
    decreases |ws|
  {
    if ws != [] {
      AheadSplit(u, BE(ws[0], 4), Words(ws[1..]));
      LengthAhead(u, ws[0]);
      UnpackWordsAhead(Skip(u, 4), ws[1..]);
      assert ws == [ws[0]] + ws[1..];
    }
  }

  lemma {:induction false} UnpackWordsOk(u: Un, n: nat)
    requires UnpackWords(u, n).1.ok
    ensures u.ok && UnpackWords(u, n).1.buf == u.buf && UnpackWords(u, n).1.ind == u.ind + 4 * n
    ensures n > 0 ==> u.ind + 4 * n <= |u.buf|
    decreases n
  {
    if n > 0 {
      ReadBEExt(u, 4, []);
      var x := ReadBE(u, 4).1;
      assert UnpackWords(x, n - 1).1.ok;
      UnpackWordsOk(x, n - 1);
      ReadBEPosition(u, 4);
    }
  }

  lemma {:induction false} ReadBEPosition(u: Un, k: nat)
    requires ReadBE(u, k).1.ok
    ensures u.ok && ReadBE(u, k).1 == Skip(u, k) && (k > 0 ==> u.ind + k <= |u.buf|)
  {
    if k > 0 {
      assert ReadBE(u, k - 1).1.ok;
      ReadBEPosition(u, k - 1);
    }
  }

  /** Packing the header changes nothing outside its own words: the channel's four
      bytes and the whole payload stay, and the words read back. */
  lemma HeaderRoundTrip(buf: seq<Byte>, ws: seq<nat>)
    requires HEADER <= |buf| && |ws| <= 5 && forall i :: 0 <= i < |ws| ==> ws[i] < WORD
    ensures var b := PackHeader(buf, ws);
            && |b| == |buf| && b[..4] == buf[..4] && b[HEADER..] == buf[HEADER..]
            && UnpackHeader(Un(b, 0, true), |ws|) == (ws, Un(b, HEADER, true))
  {
    var b := PackHeader(buf, ws);
    var u := Un(b, 4, true);
    assert b[4..4 + 4 * |ws|] == Words(ws);
    UnpackWordsAhead(u, ws);
  }

  /** A request or reply as it is sent: `size` is what the channel wrote. */
  function Message(size: seq<Byte>, ws: seq<nat>, ts: seq<Ty>, vs: seq<Val>): seq<Byte>
    requires |size| == 4 && |ws| <= 5 && |ts| == |vs|
  {
    PackHeader(size + seq(HEADER - 4, _ => 0) + EncodeArgs(ts, vs), ws)
  }

  function Receive(m: seq<Byte>, n: nat, ts: seq<Ty>, lt: (Val, Val) -> bool): (seq<nat>, seq<Val>, Un) {
    var (ws, u) := UnpackHeader(Un(m, 0, true), n);
    var (vs, w) := DecodeArgs(ts, u, lt);
    (ws, vs, w)
  }

  /** What the server reads is what the client marshalled, and nothing is left. */
  lemma MessageRoundTrip(size: seq<Byte>, ws: seq<nat>, ts: seq<Ty>, vs: seq<Val>, lt: (Val, Val) -> bool)
    requires |size| == 4 && |ws| <= 5 && (forall i :: 0 <= i < |ws| ==> ws[i] < WORD) && ArgsTyped(ts, vs, lt)
    ensures var (ws', vs', u) := Receive(Message(size, ws, ts, vs), |ws|, ts, lt);
            ws' == ws && vs' == vs && OkDone(u)
  {
    var raw := size + seq(HEADER - 4, _ => 0) + EncodeArgs(ts, vs);
    HeaderRoundTrip(raw, ws);
    var m := Message(size, ws, ts, vs);
    assert raw[HEADER..] == EncodeArgs(ts, vs);
    assert m[HEADER..|m|] == m[HEADER..];
    DecodeEncodeArgs(ts, vs, Un(m, HEADER, true), lt);
  }

  /** A message cut short anywhere is never accepted: reading it ends not ok, or
      not at its end. */
  lemma CutMessageRejected(size: seq<Byte>, ws: seq<nat>, ts: seq<Ty>, vs: seq<Val>, k: nat, lt: (Val, Val) -> bool)
    requires |size| == 4 && |ws| <= 5 && (forall i :: 0 <= i < |ws| ==> ws[i] < WORD) && ArgsTyped(ts, vs, lt)
    requires k < |Message(size, ws, ts, vs)|
    ensures !OkDone(Receive(Message(size, ws, ts, vs)[..k], |ws|, ts, lt).2)
  {
    var m := Message(size, ws, ts, vs);
    var p, more := m[..k], m[k..];
    assert m == p + more;
    MessageRoundTrip(size, ws, ts, vs, lt);
    var u := UnpackHeader(Un(p, 0, true), |ws|).1;
    var end := DecodeArgs(ts, u, lt).1;
    if end.ok {
      DecodeArgsExt(ts, u, more, lt);
      HeaderOfPrefix(p, more, |ws|);
      assert UnpackHeader(Un(m, 0, true), |ws|).1 == Ext(u, more);
      var whole := DecodeArgs(ts, Ext(u, more), lt).1;
      assert whole == Ext(end, more) && OkDone(whole);
      assert end.ind == |m|;
    }
  }

  /** take_in: the caller's object gets the reply's buffer; its ok flag starts anew
      from the size alone. */
  function TakeIn(m: seq<Byte>): Un { Un(m, HEADER, |m| >= HEADER) }

  /** The client's way: got_pdu reads the header, the caller then decodes the result
      from a buffer taken in. */
  function ReceiveReply(m: seq<Byte>, ts: seq<Ty>, lt: (Val, Val) -> bool): (seq<nat>, seq<Val>, Un) {
    var (vs, w) := DecodeArgs(ts, TakeIn(m), lt);
    (UnpackHeader(Un(m, 0, true), 2).0, vs, w)
  }

  /** The caller gets the status and the result the server marshalled. */
  lemma ReplyRoundTrip(size: seq<Byte>, ws: seq<nat>, ts: seq<Ty>, vs: seq<Val>, lt: (Val, Val) -> bool)
    requires |size| == 4 && |ws| == 2 && (forall i :: 0 <= i < |ws| ==> ws[i] < WORD) && ArgsTyped(ts, vs, lt)
    ensures var (ws', vs', u) := ReceiveReply(Message(size, ws, ts, vs), ts, lt);
            ws' == ws && vs' == vs && OkDone(u)
  {
    MessageRoundTrip(size, ws, ts, vs, lt);
    HeaderRoundTrip(size + seq(HEADER - 4, _ => 0) + EncodeArgs(ts, vs), ws);
  }

  /** Although take_in forgets an earlier failure, no reply cut short is accepted. */
  lemma CutReplyRejected(size: seq<Byte>, ws: seq<nat>, ts: seq<Ty>, vs: seq<Val>, k: nat, lt: (Val, Val) -> bool)
    requires |size| == 4 && |ws| == 2 && (forall i :: 0 <= i < |ws| ==> ws[i] < WORD) && ArgsTyped(ts, vs, lt)
    requires k < |Message(size, ws, ts, vs)|
    ensures !OkDone(ReceiveReply(Message(size, ws, ts, vs)[..k], ts, lt).2)
  {
    var m := Message(size, ws, ts, vs);
    var u, more := TakeIn(m[..k]), m[k..];
    assert m == m[..k] + more;
    ReplyRoundTrip(size, ws, ts, vs, lt);
    DecodeArgsExt(ts, u, more, lt);
    assert u.ok ==> TakeIn(m) == Ext(u, more);
  }

  lemma HeaderOfPrefix(p: seq<Byte>, more: seq<Byte>, n: nat)
    requires UnpackHeader(Un(p, 0, true), n).1.ok
    ensures UnpackHeader(Un(p, 0, true), n).1.buf == p
    ensures UnpackHeader(Un(p + more, 0, true), n).1 == Ext(UnpackHeader(Un(p, 0, true), n).1, more)
  {
    UnpackWordsOk(Un(p, 4, true), n);
    UnpackWordsExt(Un(p, 4, true), n, more);
  }

  lemma {:induction false} UnpackWordsExt(u: Un, n: nat, more: seq<Byte>)
    requires UnpackWords(u, n).1.ok
    ensures UnpackWords(Ext(u, more), n) == (UnpackWords(u, n).0, Ext(UnpackWords(u, n).1, more))
    decreases n
  {
    if n > 0 {
      var x := ReadBE(u, 4).1;
      assert UnpackWords(x, n - 1).1.ok;
      UnpackWordsOk(x, n - 1);
      ReadBEExt(u, 4, more);
      UnpackWordsExt(x, n - 1, more);
    }
  }
}
