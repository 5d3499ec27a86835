/** Marshaling into a buffer: sizes and counts are left open and filled in once they are known. */
module Writer {
  import opened Words
  import opened Values
  import opened Buffers
  import opened Frames
  import opened Framing
  import opened Messages
  import opened RoundTrip

  /** What the Go types of a value guarantee before Marshal looks at it. */
  ghost predicate Typed(v: Value)
    decreases v
  {
    match v
    case Num(k, n) => InRange(k, n)
    case List(vs) => forall x | x in vs :: Typed(x)
    case Map(es) => forall e | e in es :: Typed(e.key) && Typed(e.val)
    case Described(d, x) => Typed(d) && Typed(x)
    case Composite(_, fs) => |fs| < MOD32 && forall x | x in fs :: Typed(x)
    case NumArray(k, ns) => forall n | n in ns :: InRange(k, n)
    case VarArray(_, ss) => forall t | 0 <= t < |ss| :: |ss[t]| < MOD32
    case _ => true
  }

  // ---- numbers -----------------------------------------------------------------------

  lemma {:induction false} Be16(n: nat)
    requires n < Pow256(16)
    ensures n / 0x1_0000_0000_0000_0000 < Pow256(8) && n % 0x1_0000_0000_0000_0000 < Pow256(8)
    ensures Be(n, 16) == Be(n / 0x1_0000_0000_0000_0000, 8) + Be(n % 0x1_0000_0000_0000_0000, 8)
  {
    Pow256Values();
    hide FromBe;
    var p, q := Be(n / 0x1_0000_0000_0000_0000, 8), Be(n % 0x1_0000_0000_0000_0000, 8);
    assert q == q[..4] + q[4..] && p + q == (p + q[..4]) + q[4..];
    FromBeJoin4(p, q[..4]);
    FromBeJoin4(p + q[..4], q[4..]);
    FromBeJoin4(q[..4], q[4..]);
    BeUnique(Be(n, 16), p + q);
  }

  /** An unsigned number in the width its constructor announces. */
  method AppendWide(wr: Buffer, u: nat, w: nat)
    requires wr.Valid() && w in {1, 2, 4, 8, 16} && u < Pow256(w)
    modifies wr`b, wr`cap
    ensures wr.Valid() && wr.b == old(wr.b) + Be(u, w)
  {
    Pow256Values();
    hide FromBe, Pow256;
    match w {
      case 1 => Be1(u); wr.Append([u]);
      case 2 => wr.AppendUint16(u);
      case 4 => wr.AppendUint32(u);
      case 8 => wr.AppendUint64(u);
      case _ =>
        Be16(u);
        wr.AppendUint64(u / 0x1_0000_0000_0000_0000);
        wr.AppendUint64(u % 0x1_0000_0000_0000_0000);
    }
  }

  method WriteNum(wr: Buffer, k: NumKind, n: int)
    requires wr.Valid() && InRange(k, n)
    modifies wr`b, wr`cap
    ensures wr.Valid() && wr.b == old(wr.b) + EncodeNum(k, n)
  {
    hide Pow256, FromBe;
    if (k == Uint || k == Ulong) && n == 0 {
      wr.Append([if k == Uint then 0x43 else 0x44]);
    } else if (k == Uint || k == Ulong) && n < 256 {
      wr.Append([SmallCode(k).value, n]);
    } else if (k == Int || k == Long) && -128 <= n < 128 {
      wr.Append([SmallCode(k).value, n % 256]);
    } else {
      wr.Append([WideCode(k)]);
      AppendWide(wr, Raw(n, Width(k)), Width(k));
    }
  }

  lemma {:induction false} ShortVar(p: bytes, k: VarKind, s: bytes)
    requires |s| < 256
    ensures p + [Code8(k), |s|] + s == p + EncodeVar(k, s)
  {
  }

  lemma {:induction false} LongVar(p: bytes, k: VarKind, s: bytes)
    requires 256 <= |s| < MOD32
    ensures |s| < Pow256(4) && p + [Code32(k)] + Be(|s|, 4) + s == p + EncodeVar(k, s)
  {
    Pow256Small();
    hide FromBe;
  }

  method WriteVar(wr: Buffer, k: VarKind, s: bytes) returns (ok: bool)
    requires wr.Valid()
    modifies wr`b, wr`cap
    ensures wr.Valid() && old(wr.b) <= wr.b && ok == EncodableVar(k, s)
    ensures ok ==> wr.b == old(wr.b) + EncodeVar(k, s)
  {
    hide ValidUtf8, Pow256, EncodeVar, Be;
    if k == Str && !ValidUtf8(s) { return false; }
    if |s| < 256 {
      ShortVar(wr.b, k, s);
      wr.Append([Code8(k), |s|]);
      wr.Append(s);
      return true;
    }
    if |s| < MOD32 - 1 {
      LongVar(wr.b, k, s);
      wr.Append([Code32(k)]);
      wr.AppendUint32(|s|);
      wr.Append(s);
      return true;
    }
    return false;
  }

  // ---- arrays ------------------------------------------------------------------------

  method WriteArrayHeader(wr: Buffer, count: nat, size: nat, elem: byte)
    requires wr.Valid() && count <= size
    modifies wr`b, wr`cap
    ensures wr.Valid() && wr.b == old(wr.b) + ArrayHeader(count, size, elem)
  {
    hide Pow256;
    if size + 2 <= 255 {
      wr.Append([0xe0, size + 2, count, elem]);
    } else {
      wr.Append([0xf0]);
      wr.AppendUint32(Low32(size + 5));
      wr.AppendUint32(Low32(count));
      wr.Append([elem]);
    }
  }

  lemma {:induction false} NumsStep(ns: seq<int>, k: nat, w: nat)
    requires k < |ns|
    ensures EncodeNums(ns[k..], w) == Be(Residue(ns[k], w), w) + EncodeNums(ns[k + 1..], w)
  {
    assert ns[k..][1..] == ns[k + 1..];
  }

  lemma {:induction false} NumsEnd(ns: seq<int>, w: nat)
    ensures EncodeNums(ns[|ns|..], w) == [] && ns[0..] == ns
  {
  }

  method WriteNumArray(wr: Buffer, k: NumKind, ns: seq<int>)
    requires wr.Valid()
    modifies wr`b, wr`cap
    ensures wr.Valid() && wr.b == old(wr.b) + EncodeNumArray(k, ns)
  {
    hide EncodeNumArray, EncodeNums, ArrayHeader, NarrowArray;
    var narrow := FindNarrow(k, ns);
    if narrow { NarrowKinds(k, ns); }
    var w := if narrow then 1 else Width(k);
    var elem := if narrow then SmallCode(k).value else WideCode(k);
    NumArrayBytes(wr.b, k, ns, w, elem);
    WriteArrayHeader(wr, |ns|, |ns| * w, elem);
    WriteNums(wr, ns, w);
  }

  lemma {:induction false} NarrowKinds(k: NumKind, ns: seq<int>)
    requires NarrowArray(k, ns)
    ensures SmallCode(k).Some?
  {
  }

  lemma {:induction false} NumArrayBytes(p: bytes, k: NumKind, ns: seq<int>, w: nat, elem: byte)
    requires w == (if NarrowArray(k, ns) then 1 else Width(k))
    requires NarrowArray(k, ns) ==> SmallCode(k).Some?
    requires elem == if NarrowArray(k, ns) then SmallCode(k).value else WideCode(k)
    ensures |ns| <= |ns| * w
    ensures p + ArrayHeader(|ns|, |ns| * w, elem) + EncodeNums(ns, w) == p + EncodeNumArray(k, ns)
  {
    assert w >= 1 && |ns| <= |ns| * w;
    hide ArrayHeader, EncodeNums, NarrowArray;
  }

  method FindNarrow(k: NumKind, ns: seq<int>) returns (narrow: bool)
    ensures narrow == NarrowArray(k, ns)
  {
    if !(k == Uint || k == Ulong || k == Int || k == Long) { return false; }
    var most := if k == Uint || k == Ulong then 255 else 127;
    var t := 0;
    while t < |ns|
      invariant 0 <= t <= |ns| && forall u | 0 <= u < t :: ns[u] <= most
    {
      if ns[t] > most {
        assert ns[t] in ns;
        return false;
      }
      t := t + 1;
    }
    return true;
  }

  method WriteNums(wr: Buffer, ns: seq<int>, w: nat)
    requires wr.Valid() && w in {1, 2, 4, 8, 16}
    modifies wr`b, wr`cap
    ensures wr.Valid() && wr.b == old(wr.b) + EncodeNums(ns, w)
  {
    hide EncodeNums, Residue;
    NumsEnd(ns, w);
    var t := 0;
    while t < |ns|
      invariant wr.Valid() && 0 <= t <= |ns|
      invariant wr.b + EncodeNums(ns[t..], w) == old(wr.b) + EncodeNums(ns, w)
    {
      NumsStep(ns, t, w);
      AppendWide(wr, Residue(ns[t], w), w);
      t := t + 1;
    }
  }

  method WriteFlags(wr: Buffer, bs: seq<bool>)
    requires wr.Valid()
    modifies wr`b, wr`cap
    ensures wr.Valid() && wr.b == old(wr.b) + EncodeFlags(bs)
  {
    var t := 0;
    assert bs[0..] == bs;
    while t < |bs|
      invariant wr.Valid() && 0 <= t <= |bs|
      invariant wr.b + EncodeFlags(bs[t..]) == old(wr.b) + EncodeFlags(bs)
    {
      assert bs[t..][1..] == bs[t + 1..];
      wr.Append([if bs[t] then 1 else 0]);
      t := t + 1;
    }
  }

  lemma {:induction false} TotalMore(ss: seq<bytes>, k: nat)
    requires k < |ss|
    ensures TotalLen(ss[..k + 1]) == TotalLen(ss[..k]) + |ss[k]|
  {
    if k == 0 {
      assert ss[..1][1..] == [] && ss[..0] == [];
    } else {
      assert ss[..k + 1][1..] == ss[1..][..k] && ss[..k][1..] == ss[1..][..k - 1];
      TotalMore(ss[1..], k - 1);
    }
  }

  /** The array's element width and total, or failure on a string that is not UTF-8. */
  method MeasureVars(k: VarKind, ss: seq<bytes>) returns (ok: bool, wide: bool, total: nat)
    ensures ok == forall t | 0 <= t < |ss| :: k == Str ==> ValidUtf8(ss[t])
    ensures ok ==> wide == WideVarArray(ss) && total == TotalLen(ss)
  {
    hide ValidUtf8;
    ok, wide, total := true, false, 0;
    var t := 0;
    while t < |ss|
      invariant 0 <= t <= |ss|
      invariant forall u | 0 <= u < t :: k == Str ==> ValidUtf8(ss[u])
      invariant wide <==> exists u | 0 <= u < t :: |ss[u]| > 255
      invariant total == TotalLen(ss[..t])
    {
      if k == Str && !ValidUtf8(ss[t]) { return false, wide, total; }
      TotalMore(ss, t);
      total := total + |ss[t]|;
      if |ss[t]| > 255 { wide := true; }
      t := t + 1;
    }
    assert ss[..t] == ss;
  }

  lemma {:induction false} VarsStep(ss: seq<bytes>, t: nat, w: nat)
    requires t < |ss| && forall u | 0 <= u < |ss| :: |ss[u]| < Pow256(w)
    ensures EncodeVars(ss[t..], w) == Be(|ss[t]|, w) + ss[t] + EncodeVars(ss[t + 1..], w)
  {
    assert ss[t..][1..] == ss[t + 1..];
  }

  lemma {:induction false} VarsEnd(ss: seq<bytes>, w: nat)
    requires forall u | 0 <= u < |ss| :: |ss[u]| < Pow256(w)
    ensures EncodeVars(ss[|ss|..], w) == [] && ss[0..] == ss
  {
  }

  method WriteVars(wr: Buffer, ss: seq<bytes>, w: nat)
    requires wr.Valid() && w in {1, 4} && forall t | 0 <= t < |ss| :: |ss[t]| < Pow256(w)
    modifies wr`b, wr`cap
    ensures wr.Valid() && wr.b == old(wr.b) + EncodeVars(ss, w)
  {
    hide EncodeVars, Pow256;
    VarsEnd(ss, w);
    var t := 0;
    while t < |ss|
      invariant wr.Valid() && 0 <= t <= |ss|
      invariant wr.b + EncodeVars(ss[t..], w) == old(wr.b) + EncodeVars(ss, w)
    {
      VarsStep(ss, t, w);
      AppendWide(wr, |ss[t]|, w);
      wr.Append(ss[t]);
      t := t + 1;
    }
  }

  method WriteVarArray(wr: Buffer, k: VarKind, ss: seq<bytes>) returns (ok: bool)
    requires wr.Valid() && Typed(VarArray(k, ss))
    modifies wr`b, wr`cap
    ensures wr.Valid() && old(wr.b) <= wr.b && ok == Encodable(VarArray(k, ss))
    ensures ok ==> wr.b == old(wr.b) + EncodeVarArray(k, ss)
  {
    hide Pow256, ValidUtf8, TotalLen, EncodeVars, ArrayHeader, EncodeVarArray, WideVarArray;
    var wide, total;
    ok, wide, total := MeasureVars(k, ss);
    if !ok { return; }
    VarArrayBytes(wr.b, k, ss);
    if wide {
      WriteArrayHeader(wr, |ss|, total + |ss| * 4, Code32(k));
      WriteVars(wr, ss, 4);
    } else {
      WriteArrayHeader(wr, |ss|, total + |ss|, Code8(k));
      WriteVars(wr, ss, 1);
    }
  }

  lemma {:induction false} VarArrayBytes(p: bytes, k: VarKind, ss: seq<bytes>)
    requires forall t | 0 <= t < |ss| :: |ss[t]| < MOD32
    ensures forall t | 0 <= t < |ss| :: |ss[t]| < Pow256(4) && (!WideVarArray(ss) ==> |ss[t]| < Pow256(1))
    ensures p + EncodeVarArray(k, ss) ==
            if WideVarArray(ss) then p + ArrayHeader(|ss|, TotalLen(ss) + |ss| * 4, Code32(k)) + EncodeVars(ss, 4)
            else p + ArrayHeader(|ss|, TotalLen(ss) + |ss|, Code8(k)) + EncodeVars(ss, 1)
  {
    Pow256Small();
    hide ArrayHeader, EncodeVars, TotalLen, Pow256;
  }

  // ---- values ------------------------------------------------------------------------

  /** A compound header with its size and count filled in, and the body behind it. */
  lemma {:induction false} Patched(p: bytes, code: byte, count: nat, body: bytes)
    ensures Low32(4 + |body|) < Pow256(4) && Low32(count) < Pow256(4)
    ensures p + [code] + Be(Low32(4 + |body|), 4) + Be(Low32(count), 4) + body
            == p + (Header32(code, count, |body|) + body)
  {
    Pow256Small();
    hide FromBe;
  }

  lemma {:induction false} RangeStep(vs: seq<Value>, k: nat, n: nat)
    requires k < n <= |vs| && forall x | x in vs :: Encodable(x)
    ensures EncodeRange(vs, k, n) == Encode(vs[k]) + EncodeRange(vs, k + 1, n)
  {
    hide Encode, Encodable;
  }

  lemma {:induction false} RangeEnd(vs: seq<Value>, n: nat)
    requires n <= |vs| && forall x | x in vs :: Encodable(x)
    ensures EncodeRange(vs, n, n) == []
  {
    hide Encode, Encodable;
  }

  /** Items one after the other, up to the first that cannot be marshaled. */
  method WriteRange(wr: Buffer, vs: seq<Value>, n: nat) returns (ok: bool)
    requires wr.Valid() && n <= |vs| && (forall x | x in vs :: Typed(x))
    requires forall k | n <= k < |vs| :: Encodable(vs[k])
    modifies wr`b, wr`cap
    ensures wr.Valid() && old(wr.b) <= wr.b
    ensures ok == forall x | x in vs :: Encodable(x)
    ensures ok ==> wr.b == old(wr.b) + EncodeRange(vs, 0, n)
    decreases vs, 0
  {
    hide Encode, Encodable, EncodeRange, Typed;
    ghost var all := forall x | x in vs :: Encodable(x);
    if all { RangeEnd(vs, n); }
    var k := 0;
    while k < n
      invariant wr.Valid() && 0 <= k <= n && old(wr.b) <= wr.b
      invariant forall j | 0 <= j < k :: Encodable(vs[j])
      invariant all ==> wr.b + EncodeRange(vs, k, n) == old(wr.b) + EncodeRange(vs, 0, n)
    {
      if all { RangeStep(vs, k, n); }
      ok := Marshal(wr, vs[k]);
      if !ok {
        assert vs[k] in vs;
        return;
      }
      k := k + 1;
    }
    ok := true;
  }

  lemma {:induction false} EntriesStep(es: seq<Entry>, k: nat)
    requires k < |es| && forall e | e in es :: Encodable(e.key) && Encodable(e.val)
    ensures EncodeEntries(es, k) == Encode(es[k].key) + Encode(es[k].val) + EncodeEntries(es, k + 1)
  {
    hide Encode, Encodable;
  }

  lemma {:induction false} EntriesEnd(es: seq<Entry>)
    requires forall e | e in es :: Encodable(e.key) && Encodable(e.val)
    ensures EncodeEntries(es, |es|) == []
  {
    hide Encode, Encodable;
  }

  method WriteEntry(wr: Buffer, e: Entry) returns (ok: bool)
    requires wr.Valid() && Typed(e.key) && Typed(e.val)
    modifies wr`b, wr`cap
    ensures wr.Valid() && old(wr.b) <= wr.b
    ensures ok == (Encodable(e.key) && Encodable(e.val))
    ensures ok ==> wr.b == old(wr.b) + Encode(e.key) + Encode(e.val)
    decreases e, 0
  {
    hide Encode, Encodable, Typed;
    ok := Marshal(wr, e.key);
    if !ok { return; }
    ok := Marshal(wr, e.val);
  }

  method WriteEntries(wr: Buffer, es: seq<Entry>) returns (ok: bool)
    requires wr.Valid() && forall e | e in es :: Typed(e.key) && Typed(e.val)
    modifies wr`b, wr`cap
    ensures wr.Valid() && old(wr.b) <= wr.b
    ensures ok == forall e | e in es :: Encodable(e.key) && Encodable(e.val)
    ensures ok ==> wr.b == old(wr.b) + EncodeEntries(es, 0)
    decreases es, 0
  {
    hide Encode, Encodable, EncodeEntries, Typed;
    ghost var all := forall e | e in es :: Encodable(e.key) && Encodable(e.val);
    if all { EntriesEnd(es); }
    var k := 0;
    while k < |es|
      invariant wr.Valid() && 0 <= k <= |es| && old(wr.b) <= wr.b
      invariant forall j | 0 <= j < k :: Encodable(es[j].key) && Encodable(es[j].val)
      invariant all ==> wr.b + EncodeEntries(es, k) == old(wr.b) + EncodeEntries(es, 0)
    {
      assert es[k] in es;
      if all { EntriesStep(es, k); }
      ok := WriteEntry(wr, es[k]);
      if !ok { return; }
      k := k + 1;
    }
    ok := true;
  }

  /** list.Marshal, and the fields of MarshalComposite: size left open, items, then the size. */
  method WriteList32(wr: Buffer, vs: seq<Value>, n: nat) returns (ok: bool)
    requires wr.Valid() && n <= |vs| && (forall x | x in vs :: Typed(x))
    requires forall k | n <= k < |vs| :: Encodable(vs[k])
    modifies wr`b, wr`cap
    ensures wr.Valid() && old(wr.b) <= wr.b
    ensures ok == forall x | x in vs :: Encodable(x)
    ensures ok ==> var body := EncodeRange(vs, 0, n); wr.b == old(wr.b) + (Header32(0xd0, n, |body|) + body)
    decreases vs, 1
  {
    hide Encode, Encodable, EncodeRange, Typed, Header32, Pow256, Be;
    ghost var p := wr.b;
    wr.Append([0xd0]);
    var sizeIdx := wr.Len();
    wr.Append([0, 0, 0, 0]);
    wr.AppendUint32(Low32(n));
    ghost var q := wr.b;
    ok := WriteRange(wr, vs, n);
    if !ok { return; }
    ghost var body := EncodeRange(vs, 0, n);
    Patched(p, 0xd0, n, body);
    FillSize(p, 0xd0, q, wr.b, body);
    wr.PutUint32(sizeIdx, Low32(wr.Len() - (sizeIdx + 4)));
  }

  /** Where the placeholder is and what is around it. */
  lemma {:induction false} FillSize(p: bytes, code: byte, q: bytes, b: bytes, body: bytes)
    requires |q| == |p| + 9 && q[..|p| + 1] == p + [code] && b == q + body
    ensures b[..|p| + 1] == p + [code] && b[|p| + 5..] == q[|p| + 5..] + body && |b| == |p| + 9 + |body|
  {
    assert b[|p| + 5..] == q[|p| + 5..] + body;
  }

  method WriteMap(wr: Buffer, es: seq<Entry>) returns (ok: bool)
    requires wr.Valid() && forall e | e in es :: Typed(e.key) && Typed(e.val)
    modifies wr`b, wr`cap
    ensures wr.Valid() && old(wr.b) <= wr.b
    ensures ok == Encodable(Map(es))
    ensures ok ==> var body := EncodeEntries(es, 0); wr.b == old(wr.b) + (Header32(0xd1, 2 * |es|, |body|) + body)
    decreases es, 1
  {
    MapEncodable(es);
    hide Encode, Encodable, EncodeEntries, Typed, Header32, Pow256, Be;
    ghost var p := wr.b;
    var startIdx := wr.Len();
    wr.Append([0xd1, 0, 0, 0, 0, 0, 0, 0, 0]);
    ok := WriteEntries(wr, es);
    if !ok { return; }
    var pairs := 2 * |es|;
    if pairs > MOD32 - 5 { return false; }
    FillMap(wr, startIdx, pairs, p, EncodeEntries(es, 0));
  }

  method FillMap(wr: Buffer, startIdx: nat, pairs: nat, ghost p: bytes, ghost body: bytes)
    requires wr.Valid() && wr.i <= |p| && startIdx == |p| - wr.i
    requires wr.b == p + [0xd1, 0, 0, 0, 0, 0, 0, 0, 0] + body
    modifies wr`b, wr`cap
    ensures wr.Valid() && p <= wr.b && wr.b == p + (Header32(0xd1, pairs, |body|) + body)
  {
    hide Header32, Pow256, Be;
    var length := wr.Len() - startIdx - 1 - 4;
    Patched(p, 0xd1, pairs, body);
    MapFilled(p, body, wr.b, Be(Low32(length), 4), Be(Low32(pairs), 4));
    wr.PutUint32(startIdx + 1, Low32(length));
    wr.PutUint32(startIdx + 5, Low32(pairs));
  }

  /** Size and count filled in where nine bytes were left for them. */
  lemma {:induction false} MapFilled(p: bytes, body: bytes, b: bytes, size: bytes, count: bytes)
    requires b == p + [0xd1, 0, 0, 0, 0, 0, 0, 0, 0] + body && |size| == 4 == |count|
    ensures var c := b[..|p| + 1] + size + b[|p| + 5..];
            && |c| == |b| == |p| + 9 + |body|
            && c[..|p| + 5] + count + c[|p| + 9..] == p + [0xd1] + size + count + body
  {
    var c := b[..|p| + 1] + size + b[|p| + 5..];
    assert b[..|p| + 1] == p + [0xd1] && c[..|p| + 5] == p + [0xd1] + size;
    assert c[|p| + 9..] == body;
  }

  lemma {:induction false} MapEncodable(es: seq<Entry>)
    ensures Encodable(Map(es)) == (2 * |es| <= MOD32 - 5 && forall e | e in es :: Encodable(e.key) && Encodable(e.val))
  {
  }

  method LastSet(fs: seq<Value>) returns (n: nat)
    ensures n == SetCount(fs)
  {
    n := 0;
    var k := 0;
    while k < |fs|
      invariant 0 <= k <= |fs| && n == SetCount(fs[..k])
    {
      assert fs[..k + 1][..k] == fs[..k];
      if fs[k] != Null { n := k + 1; }
      k := k + 1;
    }
    assert fs[..k] == fs;
  }

  /** MarshalComposite: trailing omitted fields are dropped, inner ones written as null. */
  method MarshalComposite(wr: Buffer, code: byte, fs: seq<Value>) returns (ok: bool)
    requires wr.Valid() && Typed(Composite(code, fs))
    modifies wr`b, wr`cap
    ensures wr.Valid() && old(wr.b) <= wr.b && ok == Encodable(Composite(code, fs))
    ensures ok ==> wr.b == old(wr.b) + Encode(Composite(code, fs))
    decreases fs, 2
  {
    var n := LastSet(fs);
    NullsEncodable(fs, n);
    hide Header32, EncodeRange;
    if n == 0 {
      wr.Append([0x00, 0x53, code, 0x45]);
      return true;
    }
    ghost var p := wr.b;
    wr.Append([0x00, 0x53, code]);
    ok := WriteList32(wr, fs, n);
    if ok { CompositeIs(p, code, fs, n); }
  }

  lemma {:induction false} NullsEncodable(fs: seq<Value>, n: nat)
    requires n == SetCount(fs)
    ensures forall k | n <= k < |fs| :: Encodable(fs[k])
    ensures n == 0 ==> forall x | x in fs :: Encodable(x)
  {
  }

  lemma {:induction false} CompositeIs(p: bytes, code: byte, fs: seq<Value>, n: nat)
    requires n == SetCount(fs) > 0 && |fs| < MOD32 && forall x | x in fs :: Encodable(x)
    ensures var body := EncodeRange(fs, 0, n);
            p + [0x00, 0x53, code] + (Header32(0xd0, n, |body|) + body) == p + Encode(Composite(code, fs))
  {
    hide Header32, EncodeRange;
  }

  /** Marshal appends the value's encoding, or reports that it has none. */
  method Marshal(wr: Buffer, v: Value) returns (ok: bool)
    requires wr.Valid() && Typed(v)
    modifies wr`b, wr`cap
    ensures wr.Valid() && old(wr.b) <= wr.b && ok == Encodable(v)
    ensures ok ==> wr.b == old(wr.b) + Encode(v)
    decreases v, 1
  {
    hide Header32, EncodeRange, EncodeEntries;
    match v {
      case List(vs) =>
        if |vs| == 0 {
          wr.Append([0x45]);
          ok := true;
        } else {
          ok := WriteList32(wr, vs, |vs|);
        }
      case Map(es) => ok := WriteMap(wr, es);
      case Described(d, x) =>
        hide Encode, Encodable, Typed;
        ok := MarshalDescribed(wr, d, x);
      case Composite(code, fs) =>
        hide Encode, Encodable;
        ok := MarshalComposite(wr, code, fs);
      case _ =>
        hide Encode, Encodable, Typed;
        ok := MarshalSimple(wr, v);
    }
  }

  method MarshalDescribed(wr: Buffer, d: Value, x: Value) returns (ok: bool)
    requires wr.Valid() && Typed(Described(d, x))
    modifies wr`b, wr`cap
    ensures wr.Valid() && old(wr.b) <= wr.b && ok == Encodable(Described(d, x))
    ensures ok ==> wr.b == old(wr.b) + Encode(Described(d, x))
    decreases Described(d, x), 0
  {
    DescribedParts(d, x);
    hide Encode, Encodable, Typed;
    ghost var p := wr.b;
    wr.Append([0x00]);
    ok := Marshal(wr, d);
    if !ok { return; }
    ok := Marshal(wr, x);
    if ok { DescribedBytes(p, d, x); }
  }

  lemma {:induction false} DescribedParts(d: Value, x: Value)
    ensures Encodable(Described(d, x)) == (Encodable(d) && Encodable(x)) && Typed(Described(d, x)) == (Typed(d) && Typed(x))
  {
  }

  lemma {:induction false} DescribedBytes(p: bytes, d: Value, x: Value)
    requires Encodable(d) && Encodable(x)
    ensures Encodable(Described(d, x)) && p + [0x00] + Encode(d) + Encode(x) == p + Encode(Described(d, x))
  {
    assert Encode(Described(d, x)) == [0x00] + Encode(d) + Encode(x);
    hide Encode;
  }

  /** The values that hold no others: scalars and arrays. */
  method MarshalSimple(wr: Buffer, v: Value) returns (ok: bool)
    requires wr.Valid() && Typed(v) && !v.List? && !v.Map? && !v.Described? && !v.Composite?
    modifies wr`b, wr`cap
    ensures wr.Valid() && old(wr.b) <= wr.b && ok == Encodable(v)
    ensures ok ==> wr.b == old(wr.b) + Encode(v)
  {
    hide EncodeNumArray, EncodeVarArray, EncodeFlags, ArrayHeader, EncodeNum, EncodeVar, EncodableVar;
    match v {
      case Null => wr.Append([0x40]); ok := true;
      case Bool(b) => wr.Append([if b then 0x41 else 0x42]); ok := true;
      case Num(k, n) => WriteNum(wr, k, n); ok := true;
      case Var(k, s) => ok := WriteVar(wr, k, s);
      case NumArray(k, ns) => WriteNumArray(wr, k, ns); ok := true;
      case BoolArray(bs) =>
        WriteArrayHeader(wr, |bs|, |bs|, 0x56);
        WriteFlags(wr, bs);
        ok := true;
      case VarArray(k, ss) => ok := WriteVarArray(wr, k, ss);
    }
  }

  // ---- frames and messages -----------------------------------------------------------

  /**
   frames.Write into an empty buffer: header, body, then the size in front. It fails on a body that
   cannot be marshaled and on a frame too long for its size field.
   */
  method WriteFrame(buf: Buffer, channel: uint16, body: Body) returns (ok: bool)
    requires buf.Valid() && buf.b == [] && buf.i == 0 && Typed(Composite(Code(body), ToFields(body)))
    modifies buf
    ensures buf.Valid()
    ensures ok == (EncodableBody(body) && |EncodeBody(body)| + HEADER_SIZE < MOD32)
    ensures EncodableBody(body) ==>
              var f := RawFrame(channel, EncodeBody(body)); Sendable(f) ==> ok && buf.b == FrameBytes(f)
  {
    hide EncodeBody, EncodableBody, Pow256, Be, ToFields, Typed, FrameBytes;
    ok := OpenFrame(buf, channel, body);
    if !ok { return; }
    ghost var f := RawFrame(channel, EncodeBody(body));
    if buf.Len() > MOD32 - 1 { return false; }
    buf.PutUint32(0, buf.Len());
    if Sendable(f) { FrameIs(f); }
  }

  /** The frame with its size still open. */
  method OpenFrame(buf: Buffer, channel: uint16, body: Body) returns (ok: bool)
    requires buf.Valid() && buf.b == [] && Typed(Composite(Code(body), ToFields(body)))
    modifies buf`b, buf`cap
    ensures buf.Valid() && channel < Pow256(2) && ok == EncodableBody(body)
    ensures ok ==> buf.b == [0, 0, 0, 0] + ([2, 0] + Be(channel, 2) + EncodeBody(body))
  {
    hide EncodeBody, Encode, Pow256, Be, ToFields, Typed, Encodable;
    buf.Append([0, 0, 0, 0, 2, 0]);
    buf.AppendUint16(channel);
    ok := MarshalComposite(buf, Code(body), ToFields(body));
    if !ok { return; }
    BodyIs(body);
    if body.TransferBody? { buf.Append(body.transfer.payload); }
  }

  lemma {:induction false} BodyIs(b: Body)
    requires EncodableBody(b)
    ensures EncodeBody(b) == Encode(Composite(Code(b), ToFields(b))) + Payload(b)
  {
    hide Encode, Encodable;
  }

  lemma {:induction false} FrameIs(f: RawFrame)
    requires Sendable(f)
    ensures |f.body| + HEADER_SIZE < Pow256(4) && f.channel < Pow256(2)
    ensures FrameBytes(f) == Be(|f.body| + HEADER_SIZE, 4) + ([2, 0] + Be(f.channel, 2) + f.body)
  {
    Pow256Values();
    hide Be;
  }

  /** Message.Marshal: the sections in their order, up to the first that cannot be marshaled. */
  method MarshalMessage(wr: Buffer, m: Message) returns (ok: bool)
    requires wr.Valid() && forall k | 0 <= k < |SectionsOf(m)| :: Typed(SectionsOf(m)[k].body)
    modifies wr`b, wr`cap
    ensures wr.Valid() && ok == EncodableSections(SectionsOf(m))
    ensures ok ==> wr.b == old(wr.b) + EncodeSections(SectionsOf(m))
  {
    hide SectionsOf, EncodableSections, EncodeSections, Typed;
    ok := MarshalSections(wr, SectionsOf(m));
  }

  method MarshalSections(wr: Buffer, ss: seq<Section>) returns (ok: bool)
    requires wr.Valid() && forall k | 0 <= k < |ss| :: Typed(ss[k].body)
    modifies wr`b, wr`cap
    ensures wr.Valid() && ok == EncodableSections(ss)
    ensures ok ==> wr.b == old(wr.b) + EncodeSections(ss)
  {
    hide EncodeSections, EncodeSection, Encodable, Typed;
    ghost var all := EncodableSections(ss);
    if all { SectionsEnd(ss); }
    var k := 0;
    while k < |ss|
      invariant wr.Valid() && 0 <= k <= |ss| && forall j | 0 <= j < k :: Encodable(ss[j].body)
      invariant all ==> wr.b + EncodeSections(ss[k..]) == old(wr.b) + EncodeSections(ss)
    {
      if all { SectionsStep(ss, k); }
      ok := MarshalSection(wr, ss[k]);
      if !ok { return; }
      k := k + 1;
    }
    ok := true;
  }

  method MarshalSection(wr: Buffer, s: Section) returns (ok: bool)
    requires wr.Valid() && Typed(s.body)
    modifies wr`b, wr`cap
    ensures wr.Valid() && ok == Encodable(s.body)
    ensures ok ==> wr.b == old(wr.b) + EncodeSection(s)
  {
    hide Encode, Encodable, Typed;
    if s.code != HEADER && s.code != PROPERTIES { wr.Append([0x00, 0x53, s.code]); }
    ok := Marshal(wr, s.body);
  }

  lemma {:induction false} SectionsStep(ss: seq<Section>, k: nat)
    requires k < |ss| && EncodableSections(ss)
    ensures EncodeSections(ss[k..]) == EncodeSection(ss[k]) + EncodeSections(ss[k + 1..])
  {
    hide Encodable, EncodeSection;
    assert ss[k..][1..] == ss[k + 1..];
  }

  lemma {:induction false} SectionsEnd(ss: seq<Section>)
    requires EncodableSections(ss)
    ensures ss[0..] == ss && ss[|ss|..] == [] && EncodeSections(ss[|ss|..]) == []
  {
    hide Encodable;
  }
}
