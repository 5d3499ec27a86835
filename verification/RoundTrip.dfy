/** Decoding what was encoded: the value tree comes back in normal form, and nothing else is consumed. */
module RoundTrip {
  import opened Words
  import opened Values
  import opened Decoder

  // ---- which values come back --------------------------------------------------------

  /** An unsigned long that the generic reader does not take as a plain descriptor. */
  ghost predicate ReservedDescriptor(d: Value) {
    d.Num? && d.k == Ulong && 0 <= d.n < 256 && (Nested(d.n) || Refused(d.n))
  }

  /** No narrowing loss: 32- and 64-bit signed arrays are narrowed without looking at negatives. */
  ghost predicate FaithfulNums(k: NumKind, ns: seq<int>) {
    |ns| < MOD32 && (NarrowArray(k, ns) ==> forall n | n in ns :: n >= -128)
  }

  ghost predicate FaithfulVars(ss: seq<bytes>) {
    |ss| < MOD32 && (WideVarArray(ss) || |ss| <= 1 + TotalLen(ss))
  }

  ghost predicate Faithful(v: Value)
    decreases v, 0, 0
  {
    match v
    case List(vs) => |vs| < MOD32 && forall x | x in vs :: Faithful(x)
    case Map(es) => forall e | e in es :: Hashable(e.key) && Faithful(e.key) && Faithful(e.val)
    case Described(d, x) => !ReservedDescriptor(d) && Faithful(d) && Faithful(x)
    case Composite(code, fs) => Nested(code) && FaithfulFields(fs, Schema(code))
    case NumArray(k, ns) => FaithfulNums(k, ns)
    case BoolArray(bs) => |bs| < MOD32
    case VarArray(_, ss) => FaithfulVars(ss)
    case _ => true
  }

  /** The fields of a composite match its table: set ones fit their kind, required ones are set. */
  ghost predicate FaithfulFields(fs: seq<Value>, schema: seq<Field>)
    decreases fs, 0, 1
  {
    && |fs| == |schema|
    && forall i | 0 <= i < |fs| ::
         if fs[i] == Null then schema[i].onNull.Default?
         else Fits(schema[i].kind, fs[i]) && Faithful(fs[i])
  }

  /** As Faithful, but the keys of maps may be anything. */
  ghost predicate Readable(v: Value)
    decreases v, 0, 0
  {
    match v
    case List(vs) => |vs| < MOD32 && forall x | x in vs :: Readable(x)
    case Map(es) => forall e | e in es :: Readable(e.key) && Readable(e.val)
    case Described(d, x) => !ReservedDescriptor(d) && Readable(d) && Readable(x)
    case Composite(code, fs) => Nested(code) && ReadableFields(fs, Schema(code))
    case NumArray(k, ns) => FaithfulNums(k, ns)
    case BoolArray(bs) => |bs| < MOD32
    case VarArray(_, ss) => FaithfulVars(ss)
    case _ => true
  }

  ghost predicate ReadableFields(fs: seq<Value>, schema: seq<Field>)
    decreases fs, 0, 1
  {
    && |fs| == |schema|
    && forall i | 0 <= i < |fs| ::
         if fs[i] == Null then schema[i].onNull.Default?
         else Fits(schema[i].kind, fs[i]) && Readable(fs[i])
  }

  // ---- what a key that Go cannot hash does to the reader --------------------------------

  datatype Verdict = Fine | Bad | Crash

  function Then(a: Verdict, b: Verdict): (d: Verdict) {
    if a.Fine? then b else a
  }

  /** The result a verdict stands for. */
  function Told<T>(d: Verdict, v: T, next: nat): (r: Result<T>) {
    match d case Fine => Ok(v, next) case Bad => Err case Crash => Panic
  }

  /** Annotations are not checked before they are inserted, nor is what a described key holds. */
  function JudgeKey(mode: KeyMode, k: Value): (d: Verdict) {
    if mode.StringKey? || Hashable(k) then Fine
    else if mode.AnyKey? && !k.Described? then Bad
    else Crash
  }

  /** The first key in reading order that Go cannot hash decides; mode is that of the value itself, if it is a map. */
  function Judge(v: Value, mode: KeyMode): (d: Verdict)
    decreases v, 0, 0
  {
    match v
    case List(vs) => JudgeItems(vs, 0)
    case Map(es) => JudgeEntries(es, 0, mode)
    case Described(d, x) => Then(Judge(d, AnyKey), Judge(x, AnyKey))
    case Composite(code, fs) => if |fs| == |Schema(code)| then JudgeFields(fs, Schema(code), 0) else Fine
    case _ => Fine
  }

  function JudgeItems(vs: seq<Value>, k: nat): (d: Verdict)
    requires k <= |vs|
    decreases vs, |vs| - k, 1
  {
    if k == |vs| then Fine else Then(Judge(vs[k], AnyKey), JudgeItems(vs, k + 1))
  }

  function JudgeEntry(e: Entry, mode: KeyMode): (d: Verdict)
    decreases e, 0, 1
  {
    Then(if mode.StringKey? then Fine else Judge(e.key, AnyKey), Then(Judge(e.val, AnyKey), JudgeKey(mode, e.key)))
  }

  function JudgeEntries(es: seq<Entry>, k: nat, mode: KeyMode): (d: Verdict)
    requires k <= |es|
    decreases es, |es| - k, 1
  {
    if k == |es| then Fine else Then(JudgeEntry(es[k], mode), JudgeEntries(es, k + 1, mode))
  }

  function ModeOf(kind: Kind): (mode: KeyMode) {
    if kind.KStringMap? then StringKey else if kind.KAnnotations? then AnnotationKey else AnyKey
  }

  function JudgeFields(fs: seq<Value>, schema: seq<Field>, k: nat): (d: Verdict)
    requires |fs| == |schema| && k <= |fs|
    decreases fs, |fs| - k, 1
  {
    if k == |fs| then Fine else Then(Judge(fs[k], ModeOf(schema[k].kind)), JudgeFields(fs, schema, k + 1))
  }

  /** Faithful is readable with keys that can all be hashed. */
  lemma {:induction false} FaithfulFine(v: Value, mode: KeyMode)
    requires Faithful(v)
    ensures Readable(v) && Judge(v, mode) == Fine
    decreases v, 0, 0
  {
    match v
    case List(vs) =>
      forall x | x in vs ensures Readable(x) { FaithfulFine(x, AnyKey); }
      FaithfulItems(vs, 0);
    case Map(es) =>
      forall e | e in es ensures Readable(e.key) && Readable(e.val) { FaithfulEntry(e, mode); }
      FaithfulEntries(es, 0, mode);
    case Described(d, x) => FaithfulFine(d, AnyKey); FaithfulFine(x, AnyKey);
    case Composite(code, fs) => FaithfulFieldsFine(fs, Schema(code), 0);
    case _ =>
  }

  lemma {:induction false} FaithfulItems(vs: seq<Value>, k: nat)
    requires k <= |vs| && forall x | x in vs :: Faithful(x)
    ensures JudgeItems(vs, k) == Fine
    decreases vs, |vs| - k, 1
  {
    hide Faithful, Judge, Readable;
    if k < |vs| {
      FaithfulFine(vs[k], AnyKey);
      FaithfulItems(vs, k + 1);
    }
  }

  lemma {:induction false} FaithfulEntry(e: Entry, mode: KeyMode)
    requires Hashable(e.key) && Faithful(e.key) && Faithful(e.val)
    ensures Readable(e.key) && Readable(e.val) && JudgeEntry(e, mode) == Fine
    decreases e, 0, 1
  {
    hide Faithful, Judge, Readable;
    FaithfulFine(e.key, AnyKey);
    FaithfulFine(e.val, AnyKey);
  }

  lemma {:induction false} FaithfulEntries(es: seq<Entry>, k: nat, mode: KeyMode)
    requires k <= |es| && forall e | e in es :: Hashable(e.key) && Faithful(e.key) && Faithful(e.val)
    ensures JudgeEntries(es, k, mode) == Fine
    decreases es, |es| - k, 1
  {
    hide Faithful, JudgeEntry, Hashable;
    if k < |es| {
      FaithfulEntry(es[k], mode);
      FaithfulEntries(es, k + 1, mode);
    }
  }

  lemma {:induction false} FaithfulFieldsFine(fs: seq<Value>, schema: seq<Field>, k: nat)
    requires FaithfulFields(fs, schema) && k <= |fs|
    ensures JudgeFields(fs, schema, k) == Fine
    ensures k == 0 ==> ReadableFields(fs, schema)
    decreases fs, |fs| - k, 1
  {
    hide Faithful, Judge, Readable, Fits;
    if k < |fs| {
      if fs[k] == Null { JudgeNull(ModeOf(schema[k].kind)); } else { FaithfulFine(fs[k], ModeOf(schema[k].kind)); }
      FaithfulFieldsFine(fs, schema, k + 1);
    }
    if k == 0 {
      forall i | 0 <= i < |fs| && fs[i] != Null ensures Readable(fs[i]) { FaithfulFine(fs[i], AnyKey); }
    }
  }

  predicate Leaf(v: Value) {
    v.Null? || v.Bool? || v.Num? || v.Var?
  }

  lemma {:induction false} LeafFine(v: Value, mode: KeyMode)
    requires Leaf(v)
    ensures Judge(v, mode) == Fine && Readable(v)
  {
  }

  /** Among fields that hold no maps, one decides. */
  lemma {:induction false} OneDecides(fs: seq<Value>, schema: seq<Field>, t: nat, k: nat)
    requires |fs| == |schema| && k <= |fs| && t < |fs| && forall j | 0 <= j < |fs| && j != t :: Leaf(fs[j])
    ensures JudgeFields(fs, schema, k) == if k <= t then Judge(fs[t], ModeOf(schema[t].kind)) else Fine
    decreases |fs| - k
  {
    hide Judge, Leaf, ModeOf;
    if k < |fs| {
      OneDecides(fs, schema, t, k + 1);
      if k != t { LeafFine(fs[k], ModeOf(schema[k].kind)); }
    }
  }

  lemma {:induction false} JudgeNull(mode: KeyMode)
    ensures Judge(Null, mode) == Fine
  {
  }

  // ---- the value that comes back -----------------------------------------------------

  /** Symbols read as strings, map entries inserted in order, omitted fields at their defaults. */
  function Normal(v: Value): (r: Value)
    decreases v, 0, 0
  {
    match v
    case Var(k, s) => Var(if k == Symbol then Str else k, s)
    case List(vs) => List(NormalItems(vs, 0))
    case Map(es) => Map(NormalEntries(es, 0, []))
    case Described(d, x) => Described(Normal(d), Normal(x))
    case Composite(code, fs) =>
      if |fs| == |Schema(code)| then Composite(code, NormalFields(fs, Schema(code), 0)) else v
    case _ => v
  }

  function NormalItems(vs: seq<Value>, i: nat): (r: seq<Value>)
    requires i <= |vs|
    ensures |r| == |vs| - i
    decreases vs, |vs| - i, 0
  {
    if i == |vs| then [] else [Normal(vs[i])] + NormalItems(vs, i + 1)
  }

  function NormalEntry(e: Entry): (r: Entry)
    decreases e, 0, 0
  {
    Entry(Normal(e.key), Normal(e.val))
  }

  function NormalEntries(es: seq<Entry>, i: nat, acc: seq<Entry>): (r: seq<Entry>)
    requires i <= |es|
    decreases es, |es| - i, 0
  {
    if i == |es| then acc
    else
      var e := NormalEntry(es[i]);
      NormalEntries(es, i + 1, Insert(acc, e.key, e.val))
  }

  function NormalFields(fs: seq<Value>, schema: seq<Field>, k: nat): (r: seq<Value>)
    requires |fs| == |schema| && k <= |fs|
    ensures |r| == |fs| - k
    decreases fs, |fs| - k, 0
  {
    if k == |fs| then []
    else
      var f := if fs[k] == Null && schema[k].onNull.Default? then schema[k].onNull.v else Normal(fs[k]);
      [f] + NormalFields(fs, schema, k + 1)
  }

  // ---- scalars -----------------------------------------------------------------------

  lemma {:induction false} ReadNumAt(bs: bytes, i: nat, c: byte, data: bytes)
    requires At(bs, i, [c] + data) && NumCode(c).Some? && |data| == NumCode(c).value.1
    ensures var (k, w) := NumCode(c).value;
            ReadNum(bs, i) == Ok(Num(k, FromRaw(k, w, FromBe(data))), i + 1 + w)
  {
    AtSplit(bs, i, [c], data);
    AtHead(bs, i, [c]);
  }

  lemma {:induction false} SmallRoundTrip(k: NumKind, n: int)
    requires if Signed(k) then -128 <= n < 128 else 0 <= n < 256
    ensures FromRaw(k, 1, FromBe([n % 256])) == n
  {
    Pow256Small();
    assert [n % 256][..0] == [];
  }

  lemma {:induction false} WideRoundTrip(k: NumKind, n: int, bs: bytes, i: nat)
    requires InRange(k, n)
    requires At(bs, i, [WideCode(k)] + Be(Raw(n, Width(k)), Width(k)))
    ensures ReadNum(bs, i) == Ok(Num(k, n), i + 1 + Width(k))
  {
    var w := Width(k);
    var u: nat := Raw(n, w);
    assert NumCode(WideCode(k)) == Some((k, w));
    ReadNumAt(bs, i, WideCode(k), Be(u, w));
    assert FromRaw(k, w, u) == n;
  }

  lemma {:induction false} NumRoundTrip(k: NumKind, n: int, bs: bytes, i: nat)
    requires InRange(k, n) && At(bs, i, EncodeNum(k, n))
    ensures ReadNum(bs, i) == Ok(Num(k, n), i + |EncodeNum(k, n)|)
  {
    var s := EncodeNum(k, n);
    if (k == Uint || k == Ulong) && n == 0 {
      assert s + [] == s;
      ReadNumAt(bs, i, s[0], []);
    } else if ((k == Uint || k == Ulong) && n < 256) || ((k == Int || k == Long) && -128 <= n < 128) {
      SmallRoundTrip(k, n);
      assert s == [s[0]] + [n % 256];
      ReadNumAt(bs, i, s[0], [n % 256]);
    } else {
      WideRoundTrip(k, n, bs, i);
    }
  }

  lemma {:induction false} SizedAt(bs: bytes, i: nat, w: nat, p: bytes, s: bytes)
    requires Spells(p, w, |s|) && At(bs, i, p + s)
    ensures ReadSized(bs, i, w) == Ok(s, i + w + |s|)
  {
    AtSplit(bs, i, p, s);
  }

  lemma {:induction false} VarRoundTrip(k: VarKind, s: bytes, bs: bytes, i: nat)
    requires |s| < MOD32 && At(bs, i, EncodeVar(k, s))
    ensures ReadVar(bs, i) == Ok(Var(if k == Symbol then Str else k, s), i + |EncodeVar(k, s)|)
  {
    Pow256Small();
    var c, p;
    if |s| < 256 {
      c, p := Code8(k), [|s|];
      assert p[..0] == [];
    } else {
      c, p := Code32(k), Be(|s|, 4);
    }
    assert Spells(p, |p|, |s|) && VarCode(c) == Some((k, |p|));
    assert EncodeVar(k, s) == [c] + (p + s);
    AtSplit(bs, i, [c], p + s);
    AtHead(bs, i, [c]);
    SizedAt(bs, i + 1, |p|, p, s);
  }

  // ---- headers -----------------------------------------------------------------------

  /** A 32-bit header is accepted whatever the low bits of the size are: the body really is there. */
  lemma {:induction false} Header32RoundTrip(bs: bytes, i: nat, c8: byte, c32: byte, count: nat, body: bytes)
    requires c8 != c32 && count < MOD32 && At(bs, i, Header32(c32, count, |body|) + body)
    ensures ReadHeader(bs, i, c8, c32) == Ok(count, i + 9)
    ensures At(bs, i + 9, body)
  {
    Pow256Small();
    var p, q := Be(Low32(4 + |body|), 4), Be(count, 4);
    AtSplit(bs, i, Header32(c32, count, |body|), body);
    assert Header32(c32, count, |body|) == [c32] + (p + q);
    AtSplit(bs, i, [c32], p + q);
    AtHead(bs, i, [c32]);
    AtSplit(bs, i + 1, p, q);
    assert bs[i + 1..i + 5] == p && bs[i + 5..i + 9] == q;
  }

  // ---- arrays ------------------------------------------------------------------------

  lemma {:induction false} ArrayHeaderRoundTrip(bs: bytes, i: nat, count: nat, size: nat, elem: byte, data: bytes)
    requires |data| == size && count < MOD32 && count <= size
    requires At(bs, i, ArrayHeader(count, size, elem) + data)
    ensures var j := i + |ArrayHeader(count, size, elem)| - 1;
            && ReadHeader(bs, i, 0xe0, 0xf0) == Ok(count, j)
            && j < |bs| && bs[j] == elem && At(bs, j + 1, data)
  {
    Pow256Small();
    var h := ArrayHeader(count, size, elem);
    AtSplit(bs, i, h, data);
    if size + 2 <= 255 {
      var q := bs[i..i + 4];
      assert bs[i] == q[0] && bs[i + 1] == q[1] && bs[i + 2] == q[2] && bs[i + 3] == q[3];
    } else {
      var p, q := Be(Low32(size + 5), 4), Be(count, 4);
      assert h == [0xf0] + (p + (q + [elem]));
      AtSplit(bs, i, [0xf0], p + (q + [elem]));
      AtHead(bs, i, [0xf0]);
      AtSplit(bs, i + 1, p, q + [elem]);
      AtSplit(bs, i + 5, q, [elem]);
      AtHead(bs, i + 9, [elem]);
      assert bs[i + 1..i + 5] == p && bs[i + 5..i + 9] == q;
    }
  }

  lemma {:induction false} DispatchNums(bs: bytes, i: nat, n: nat, j: nat, k: NumKind, w: nat)
    requires ReadHeader(bs, i, 0xe0, 0xf0) == Ok(n, j) && j < |bs| && NumCode(bs[j]) == Some((k, w))
    ensures ReadArray(bs, i) == ReadNumArray(bs, j, n, k, w)
  {
  }

  lemma {:induction false} DispatchVars(bs: bytes, i: nat, n: nat, j: nat, k: VarKind, w: nat)
    requires ReadHeader(bs, i, 0xe0, 0xf0) == Ok(n, j) && j < |bs| && VarCode(bs[j]) == Some((k, w))
    ensures ReadArray(bs, i) == ReadVarArray(bs, j, n, k, w)
  {
    assert NumCode(bs[j]) == None;
  }

  lemma {:induction false} DispatchFlags(bs: bytes, i: nat, n: nat, j: nat)
    requires ReadHeader(bs, i, 0xe0, 0xf0) == Ok(n, j) && j + 1 + n <= |bs| && bs[j] == 0x56
    ensures ReadArray(bs, i) == Ok(BoolArray(ReadFlags(bs, j + 1, n)), j + 1 + n)
  {
  }

  /** What element n of an array written in w bytes is read back as. */
  ghost function Reread(k: NumKind, w: nat, n: int): (r: int) {
    FromRaw(k, w, Residue(n, w))
  }

  lemma {:induction false} NumsRoundTrip(k: NumKind, w: nat, ns: seq<int>, bs: bytes, i: nat)
    requires At(bs, i, EncodeNums(ns, w))
    ensures i + |ns| * w <= |bs|
    ensures var r := ReadNums(bs, i, |ns|, k, w);
            forall t | 0 <= t < |ns| :: r[t] == Reread(k, w, ns[t])
  {
    hide Residue, FromRaw, FromBe, Pow256, Be;
    if ns != [] {
      var p := Be(Residue(ns[0], w), w);
      assert EncodeNums(ns, w) == p + EncodeNums(ns[1..], w);
      AtSplit(bs, i, p, EncodeNums(ns[1..], w));
      assert bs[i..i + w] == p;
      NumsRoundTrip(k, w, ns[1..], bs, i + w);
      assert |ns| * w == w + |ns[1..]| * w;
    }
  }

  ghost function ArrayWidth(k: NumKind, ns: seq<int>): (w: nat) {
    if NarrowArray(k, ns) then 1 else Width(k)
  }

  ghost function RereadAll(k: NumKind, w: nat, ns: seq<int>): (r: seq<int>) {
    seq(|ns|, t requires 0 <= t < |ns| => Reread(k, w, ns[t]))
  }

  lemma {:induction false} NumArrayDataRoundTrip(k: NumKind, w: nat, ns: seq<int>, bs: bytes, j: nat)
    requires j < |bs| && At(bs, j + 1, EncodeNums(ns, w))
    ensures ReadNumArray(bs, j, |ns|, k, w)
         == Ok(NumArray(k, RereadAll(k, w, ns)), j + 1 + |EncodeNums(ns, w)|)
  {
    NumsRoundTrip(k, w, ns, bs, j + 1);
    assert ReadNums(bs, j + 1, |ns|, k, w) == RereadAll(k, w, ns);
  }

  lemma {:induction false} NumArrayAt(k: NumKind, w: nat, elem: byte, ns: seq<int>, h: bytes, bs: bytes, i: nat)
    requires |ns| < MOD32 && NumCode(elem) == Some((k, w)) && |ns| <= |EncodeNums(ns, w)|
    requires h == ArrayHeader(|ns|, |EncodeNums(ns, w)|, elem) && At(bs, i, h + EncodeNums(ns, w))
    ensures ReadArray(bs, i) == Ok(NumArray(k, RereadAll(k, w, ns)), i + |h| + |EncodeNums(ns, w)|)
  {
    hide ReadArray, ReadHeader, ReadNumArray, ArrayHeader, EncodeNums, NumCode, RereadAll;
    var data := EncodeNums(ns, w);
    ArrayHeaderRoundTrip(bs, i, |ns|, |data|, elem, data);
    NumArrayDataRoundTrip(k, w, ns, bs, i + |h| - 1);
    DispatchNums(bs, i, |ns|, i + |h| - 1, k, w);
  }

  /** A numeric array is always read back whole; its elements may have lost their high bytes. */
  lemma {:induction false} NumArrayReread(k: NumKind, ns: seq<int>, bs: bytes, i: nat)
    requires |ns| < MOD32 && At(bs, i, EncodeNumArray(k, ns))
    ensures ReadArray(bs, i)
         == Ok(NumArray(k, RereadAll(k, ArrayWidth(k, ns), ns)), i + |EncodeNumArray(k, ns)|)
  {
    hide ReadArray, ArrayHeader, EncodeNums;
    var w := ArrayWidth(k, ns);
    var elem := if NarrowArray(k, ns) then SmallCode(k).value else WideCode(k);
    assert |ns| <= |ns| * w;
    assert NumCode(elem) == Some((k, w));
    var h := ArrayHeader(|ns|, |ns| * w, elem);
    assert EncodeNumArray(k, ns) == h + EncodeNums(ns, w);
    NumArrayAt(k, w, elem, ns, h, bs, i);
  }

  lemma {:induction false} FlagsRoundTrip(fs: seq<bool>, bs: bytes, i: nat)
    requires At(bs, i, EncodeFlags(fs))
    ensures ReadFlags(bs, i, |fs|) == fs
  {
    if fs != [] {
      var c := [if fs[0] then 1 else 0];
      AtSplit(bs, i, c, EncodeFlags(fs[1..]));
      AtHead(bs, i, c);
      FlagsRoundTrip(fs[1..], bs, i + 1);
      assert fs == [fs[0]] + fs[1..];
    }
  }

  lemma {:induction false} BoolArrayRoundTrip(fs: seq<bool>, bs: bytes, i: nat, h: bytes)
    requires |fs| < MOD32 && h == ArrayHeader(|fs|, |fs|, 0x56) && At(bs, i, h + EncodeFlags(fs))
    ensures ReadArray(bs, i) == Ok(BoolArray(fs), i + |h| + |fs|)
  {
    hide ArrayHeader, ReadArray, ReadHeader, EncodeFlags, ReadFlags;
    ArrayHeaderRoundTrip(bs, i, |fs|, |fs|, 0x56, EncodeFlags(fs));
    FlagsRoundTrip(fs, bs, i + |h|);
    DispatchFlags(bs, i, |fs|, i + |h| - 1);
  }

  lemma {:induction false} VarsSize(ss: seq<bytes>, w: nat)
    requires (w == 1 || w == 4) && forall t | 0 <= t < |ss| :: |ss[t]| < Pow256(w)
    ensures |EncodeVars(ss, w)| == TotalLen(ss) + |ss| * w
  {
    if ss != [] {
      VarsSize(ss[1..], w);
      if w == 1 {} else {}
    }
  }

  lemma {:induction false} VarsRoundTrip(ss: seq<bytes>, w: nat, bs: bytes, i: nat)
    requires forall t | 0 <= t < |ss| :: |ss[t]| < Pow256(w)
    requires At(bs, i, EncodeVars(ss, w))
    ensures ReadSizedItems(bs, i, |ss|, w) == Ok(ss, i + |EncodeVars(ss, w)|)
  {
    hide FromBe, ReadSized, Pow256, At, ReadSizedItems;
    if ss == [] {
      SizedItemsNone(bs, i, w);
    } else {
      var p, rest := Be(|ss[0]|, w), EncodeVars(ss[1..], w);
      AtSplit(bs, i, p + ss[0], rest);
      SizedAt(bs, i, w, p, ss[0]);
      VarsRoundTrip(ss[1..], w, bs, i + w + |ss[0]|);
      assert ss == [ss[0]] + ss[1..];
      SizedItemsStep(bs, i, |ss|, w, ss[0], i + w + |ss[0]|, ss[1..], i + |EncodeVars(ss, w)|);
    }
  }

  lemma {:induction false} SizedItemsNone(bs: bytes, i: nat, w: nat)
    ensures ReadSizedItems(bs, i, 0, w) == Ok([], i)
  {
  }

  lemma {:induction false} SizedItemsStep(bs: bytes, i: nat, n: nat, w: nat, s: bytes, j: nat, ss: seq<bytes>, m: nat)
    requires n > 0 && ReadSized(bs, i, w) == Ok(s, j) && ReadSizedItems(bs, j, n - 1, w) == Ok(ss, m)
    ensures ReadSizedItems(bs, i, n, w) == Ok([s] + ss, m)
  {
    hide ReadSized;
  }

  lemma {:induction false} VarArrayDataReread(k: VarKind, w: nat, ss: seq<bytes>, bs: bytes, j: nat)
    requires forall t | 0 <= t < |ss| :: |ss[t]| < Pow256(w)
    requires j < |bs| && At(bs, j + 1, EncodeVars(ss, w))
    ensures ReadVarArray(bs, j, |ss|, k, w) ==
            if |ss| * 2 > |bs| - j then Err else Ok(VarArray(k, ss), j + 1 + |EncodeVars(ss, w)|)
  {
    VarsRoundTrip(ss, w, bs, j + 1);
  }

  lemma {:induction false} VarArrayAt(k: VarKind, w: nat, elem: byte, ss: seq<bytes>, h: bytes, bs: bytes, i: nat)
    requires |ss| < MOD32 && VarCode(elem) == Some((k, w))
    requires forall t | 0 <= t < |ss| :: |ss[t]| < Pow256(w)
    requires |ss| <= |EncodeVars(ss, w)| && h == ArrayHeader(|ss|, |EncodeVars(ss, w)|, elem)
    requires At(bs, i, h + EncodeVars(ss, w))
    ensures ReadArray(bs, i) ==
            if |ss| * 2 > |bs| - i - |h| + 1 then Err else Ok(VarArray(k, ss), i + |h| + |EncodeVars(ss, w)|)
  {
    hide ReadArray, ReadHeader, ReadVarArray, ArrayHeader, EncodeVars, VarCode;
    var data := EncodeVars(ss, w);
    ArrayHeaderRoundTrip(bs, i, |ss|, |data|, elem, data);
    VarArrayDataReread(k, w, ss, bs, i + |h| - 1);
    DispatchVars(bs, i, |ss|, i + |h| - 1, k, w);
  }

  lemma {:induction false} WideVarArrayReread(k: VarKind, ss: seq<bytes>, bs: bytes, i: nat)
    requires |ss| < MOD32 && (forall t | 0 <= t < |ss| :: |ss[t]| < MOD32) && WideVarArray(ss)
    requires At(bs, i, EncodeVarArray(k, ss))
    ensures ReadArray(bs, i) == Ok(VarArray(k, ss), i + |EncodeVarArray(k, ss)|)
  {
    Pow256Small();
    VarsSize(ss, 4);
    var h := ArrayHeader(|ss|, TotalLen(ss) + |ss| * 4, Code32(k));
    assert EncodeVarArray(k, ss) == h + EncodeVars(ss, 4);
    VarArrayAt(k, 4, Code32(k), ss, h, bs, i);
  }

  lemma {:induction false} NarrowVarArrayReread(k: VarKind, ss: seq<bytes>, bs: bytes, i: nat)
    requires |ss| < MOD32 && (forall t | 0 <= t < |ss| :: |ss[t]| < MOD32) && !WideVarArray(ss)
    requires At(bs, i, EncodeVarArray(k, ss))
    ensures var e := i + |EncodeVarArray(k, ss)|;
            ReadArray(bs, i) == if |ss| <= 1 + TotalLen(ss) + |bs| - e then Ok(VarArray(k, ss), e) else Err
  {
    Pow256Small();
    VarsSize(ss, 1);
    var h := ArrayHeader(|ss|, TotalLen(ss) + |ss| * 1, Code8(k));
    assert EncodeVarArray(k, ss) == h + EncodeVars(ss, 1);
    VarArrayAt(k, 1, Code8(k), ss, h, bs, i);
  }

  /** The reader's "two bytes each" estimate is met exactly when few enough elements are empty. */
  lemma {:induction false} VarArrayReread(k: VarKind, ss: seq<bytes>, bs: bytes, i: nat)
    requires |ss| < MOD32 && (forall t | 0 <= t < |ss| :: |ss[t]| < MOD32)
    requires At(bs, i, EncodeVarArray(k, ss))
    ensures var e := i + |EncodeVarArray(k, ss)|;
            ReadArray(bs, i) ==
              if WideVarArray(ss) || |ss| <= 1 + TotalLen(ss) + |bs| - e then Ok(VarArray(k, ss), e) else Err
  {
    if WideVarArray(ss) {
      WideVarArrayReread(k, ss, bs, i);
    } else {
      NarrowVarArrayReread(k, ss, bs, i);
    }
  }

  lemma {:induction false} RereadSame(k: NumKind, ns: seq<int>)
    requires FaithfulNums(k, ns) && forall n | n in ns :: InRange(k, n)
    ensures RereadAll(k, ArrayWidth(k, ns), ns) == ns
  {
    forall t | 0 <= t < |ns| ensures Reread(k, ArrayWidth(k, ns), ns[t]) == ns[t] {
      assert ns[t] in ns;
      Pow256Small();
    }
  }

  // ---- the value tree ----------------------------------------------------------------

  lemma {:induction false} ArrayRoundTrip(v: Value, bs: bytes, i: nat)
    requires v.NumArray? || v.BoolArray? || v.VarArray?
    requires Encodable(v) && Readable(v) && At(bs, i, Encode(v))
    ensures ReadArray(bs, i) == Ok(v, i + |Encode(v)|)
  {
    match v
    case NumArray(k, ns) =>
      NumArrayReread(k, ns, bs, i);
      RereadSame(k, ns);
    case BoolArray(fs) => BoolArrayRoundTrip(fs, bs, i, ArrayHeader(|fs|, |fs|, 0x56));
    case VarArray(k, ss) => VarArrayReread(k, ss, bs, i);
  }

  // Which reader ReadAny picks for the first byte of an encoding.

  lemma {:induction false} AnyNum(bs: bytes, i: nat)
    requires i < |bs| && NumCode(bs[i]).Some?
    ensures ReadAny(bs, i) == ReadNum(bs, i)
  {
  }

  lemma {:induction false} AnyVar(bs: bytes, i: nat)
    requires i < |bs| && VarCode(bs[i]).Some?
    ensures ReadAny(bs, i) == ReadVar(bs, i)
  {
    assert NumCode(bs[i]).None?;
  }

  lemma {:induction false} AnyArray(bs: bytes, i: nat)
    requires ReadArray(bs, i).Ok?
    ensures ReadAny(bs, i) == ReadArray(bs, i)
  {
    assert ReadHeader(bs, i, 0xe0, 0xf0).Ok?;
    assert bs[i] == 0xe0 || bs[i] == 0xf0;
  }

  lemma {:induction false} ScalarRoundTrip(v: Value, bs: bytes, i: nat)
    requires v.Null? || v.Bool? || v.Num? || v.Var?
    requires Encodable(v) && At(bs, i, Encode(v))
    ensures ReadAny(bs, i) == Ok(Normal(v), i + |Encode(v)|)
  {
    AtHead(bs, i, Encode(v));
    match v
    case Null =>
    case Bool(_) =>
    case Num(k, n) =>
      NumRoundTrip(k, n, bs, i);
      assert ReadNum(bs, i).Ok?;
      AnyNum(bs, i);
    case Var(k, s) =>
      VarRoundTrip(k, s, bs, i);
      assert ReadVar(bs, i).Ok?;
      AnyVar(bs, i);
  }

  lemma {:induction false} StringRoundTrip(v: Value, bs: bytes, i: nat)
    requires v.Var? && v.vk != Binary && Encodable(v) && At(bs, i, Encode(v))
    ensures ReadString(bs, i) == Ok(Normal(v), i + |Encode(v)|)
  {
    VarRoundTrip(v.vk, v.s, bs, i);
  }

  lemma {:induction false} BinaryRoundTrip(v: Value, bs: bytes, i: nat)
    requires v.Var? && v.vk == Binary && Encodable(v) && At(bs, i, Encode(v))
    ensures ReadVar(bs, i) == Ok(v, i + |Encode(v)|)
  {
    VarRoundTrip(v.vk, v.s, bs, i);
  }

  lemma {:induction false} BoolRoundTrip(b: bool, bs: bytes, i: nat)
    requires At(bs, i, Encode(Bool(b)))
    ensures ReadBool(bs, i) == Ok(Bool(b), i + 1)
  {
    AtHead(bs, i, Encode(Bool(b)));
  }

  lemma {:induction false} ListAt(n: nat, body: bytes, bs: bytes, i: nat, d: Verdict, vs: seq<Value>)
    requires 0 < n < MOD32 && n <= |body| && At(bs, i, Header32(0xd0, n, |body|) + body)
    requires ReadItems(bs, i + 9, n) == Told(d, vs, i + 9 + |body|)
    ensures ReadList(bs, i) == Told(d, List(vs), i + 9 + |body|) && bs[i] == 0xd0
  {
    hide ReadItems;
    Header32RoundTrip(bs, i, 0xc0, 0xd0, n, body);
  }

  lemma {:induction false} MapAt(n: nat, body: bytes, bs: bytes, i: nat, mode: KeyMode, d: Verdict, es: seq<Entry>)
    requires n < MOD32 && n <= |body| && At(bs, i, Header32(0xd1, n, |body|) + body)
    requires ReadEntries(bs, i + 9, n, mode, []) == Told(d, es, i + 9 + |body|)
    ensures ReadMap(bs, i, mode) == Told(d, Map(es), i + 9 + |body|) && bs[i] == 0xd1
  {
    hide ReadEntries;
    Header32RoundTrip(bs, i, 0xc1, 0xd1, n, body);
  }

  lemma {:induction false} AnyList(bs: bytes, i: nat)
    requires i < |bs| && (bs[i] == 0x45 || bs[i] == 0xc0 || bs[i] == 0xd0)
    ensures ReadAny(bs, i) == ReadList(bs, i)
  {
    hide ReadList;
  }

  lemma {:induction false} AnyMap(bs: bytes, i: nat)
    requires i < |bs| && (bs[i] == 0xc1 || bs[i] == 0xd1)
    ensures ReadAny(bs, i) == ReadMap(bs, i, AnyKey)
  {
    hide ReadMap;
  }

  lemma {:induction false} ItemsStep(bs: bytes, i: nat, n: nat, d: Verdict, v: Value, j: nat,
                                     rest: Verdict, r: seq<Value>, m: nat)
    requires n > 0 && ReadAny(bs, i) == Told(d, v, j)
    requires d == Fine ==> ReadItems(bs, j, n - 1) == Told(rest, r, m)
    ensures ReadItems(bs, i, n) == Told(Then(d, rest), [v] + r, m)
  {
    hide ReadAny;
  }

  lemma {:induction false} ItemsDone(bs: bytes, i: nat)
    ensures ReadItems(bs, i, 0) == Ok([], i)
    ensures forall mode, acc :: ReadEntries(bs, i, 0, mode, acc) == Ok(acc, i)
  {
  }

  lemma {:induction false} ItemsOutcome(vs: seq<Value>, k: nat, bs: bytes, i: nat)
    requires k <= |vs| && forall x | x in vs :: Encodable(x) && Readable(x)
    requires At(bs, i, EncodeRange(vs, k, |vs|))
    ensures ReadItems(bs, i, |vs| - k)
         == Told(JudgeItems(vs, k), NormalItems(vs, k), i + |EncodeRange(vs, k, |vs|)|)
    decreases vs, |vs| - k, 1
  {
    hide ReadAny, ReadItems, ReadList, ReadMap, ReadEntries, ReadDescribed, ReadComposite,
      UnmarshalComposite, ReadFields, ReadField;
    hide Encode, Encodable, Readable, Normal, Judge;
    if k == |vs| {
      ItemsDone(bs, i);
    } else {
      var j := i + |Encode(vs[k])|;
      AtSplit(bs, i, Encode(vs[k]), EncodeRange(vs, k + 1, |vs|));
      ValueOutcome(vs[k], bs, i);
      ItemsOutcome(vs, k + 1, bs, j);
      ItemsStep(bs, i, |vs| - k, Judge(vs[k], AnyKey), Normal(vs[k]), j, JudgeItems(vs, k + 1),
                NormalItems(vs, k + 1), i + |EncodeRange(vs, k, |vs|)|);
    }
  }

  /** The key reader of each map decoder gives back the key in normal form, and takes it as a key. */
  ghost predicate KeyFits(mode: KeyMode, k: Value) {
    mode.StringKey? ==> k.Var? && k.vk != Binary
  }

  function KeyVerdict(mode: KeyMode, k: Value): (d: Verdict) {
    if mode.StringKey? then Fine else Judge(k, AnyKey)
  }

  lemma {:induction false} EntryOutcome(e: Entry, mode: KeyMode, bs: bytes, i: nat)
    requires Encodable(e.key) && Readable(e.key) && Encodable(e.val) && Readable(e.val)
    requires KeyFits(mode, e.key) && At(bs, i, EncodeEntry(e))
    ensures var j := i + |Encode(e.key)|;
            && (if mode.StringKey? then ReadString(bs, i) else ReadAny(bs, i))
               == Told(KeyVerdict(mode, e.key), NormalEntry(e).key, j)
            && ReadAny(bs, j) == Told(Judge(e.val, AnyKey), NormalEntry(e).val, i + |EncodeEntry(e)|)
    decreases e, 0, 1
  {
    hide ReadAny, ReadItems, ReadList, ReadMap, ReadEntries, ReadDescribed, ReadComposite,
      UnmarshalComposite, ReadFields, ReadField;
    hide Encode, Encodable, Readable, Normal, ReadString, Judge;
    AtSplit(bs, i, Encode(e.key), Encode(e.val));
    ValueOutcome(e.val, bs, i + |Encode(e.key)|);
    if mode.StringKey? {
      StringRoundTrip(e.key, bs, i);
    } else {
      ValueOutcome(e.key, bs, i);
    }
  }

  /** Normal form keeps what matters about a key. */
  lemma {:induction false} HashableNormal(v: Value)
    ensures Hashable(Normal(v)) == Hashable(v) && Normal(v).Described? == v.Described?
  {
    if v.Described? {
      HashableNormal(v.descriptor);
      HashableNormal(v.value);
    }
  }

  lemma {:induction false} EntriesStep(bs: bytes, i: nat, count: nat, mode: KeyMode, acc: seq<Entry>,
                                       dk: Verdict, k: Value, j: nat, dx: Verdict, x: Value, m: nat)
    requires count >= 2
    requires (if mode.StringKey? then ReadString(bs, i) else ReadAny(bs, i)) == Told(dk, k, j)
    requires dk == Fine ==> ReadAny(bs, j) == Told(dx, x, m)
    ensures ReadEntries(bs, i, count, mode, acc)
         == match Then(dk, Then(dx, JudgeKey(mode, k)))
            case Fine => ReadEntries(bs, m, count - 2, mode, Insert(acc, k, x))
            case Bad => Err
            case Crash => Panic
  {
    hide ReadAny, ReadString, Insert, Hashable;
  }

  lemma {:induction false} EntriesOutcome(es: seq<Entry>, k: nat, mode: KeyMode, acc: seq<Entry>, bs: bytes, i: nat)
    requires k <= |es|
    requires forall e | e in es :: Encodable(e.key) && Encodable(e.val) && KeyFits(mode, e.key)
    requires forall e | e in es :: Readable(e.key) && Readable(e.val)
    requires At(bs, i, EncodeEntries(es, k))
    ensures ReadEntries(bs, i, 2 * (|es| - k), mode, acc)
         == Told(JudgeEntries(es, k, mode), NormalEntries(es, k, acc), i + |EncodeEntries(es, k)|)
    decreases es, |es| - k, 2
  {
    hide ReadAny, ReadItems, ReadList, ReadMap, ReadEntries, ReadDescribed, ReadComposite,
      UnmarshalComposite, ReadFields, ReadField;
    hide Encode, Encodable, Readable, Normal, Hashable, Insert, Judge, JudgeKey;
    if k == |es| {
      ItemsDone(bs, i);
    } else {
      var e := es[k];
      AtSplit(bs, i, EncodeEntry(e), EncodeEntries(es, k + 1));
      EntryOutcome(e, mode, bs, i);
      KeyNormal(mode, e.key);
      var r, m := NormalEntry(e), i + |EncodeEntry(e)|;
      EntriesStep(bs, i, 2 * (|es| - k), mode, acc, KeyVerdict(mode, e.key), r.key, i + |Encode(e.key)|,
                  Judge(e.val, AnyKey), r.val, m);
      EntriesOutcome(es, k + 1, mode, Insert(acc, r.key, r.val), bs, m);
    }
  }

  lemma {:induction false} KeyNormal(mode: KeyMode, k: Value)
    ensures JudgeKey(mode, Normal(k)) == JudgeKey(mode, k)
  {
    hide Hashable, Normal;
    HashableNormal(k);
  }

  lemma {:induction false} ListOutcome(vs: seq<Value>, bs: bytes, i: nat)
    requires Encodable(List(vs)) && Readable(List(vs)) && At(bs, i, Encode(List(vs)))
    ensures i < |bs| && (bs[i] == 0x45 || bs[i] == 0xd0)
    ensures ReadList(bs, i) == Told(JudgeItems(vs, 0), List(NormalItems(vs, 0)), i + |Encode(List(vs))|)
    decreases List(vs), 0, 0
  {
    hide ReadAny, ReadItems, ReadList, ReadMap, ReadEntries, ReadDescribed, ReadComposite,
      UnmarshalComposite, ReadFields, ReadField;
    hide Normal, Judge;
    if vs == [] {
      AtHead(bs, i, Encode(List(vs)));
      EmptyListAt(bs, i);
    } else {
      var body := EncodeRange(vs, 0, |vs|);
      AtSplit(bs, i, Header32(0xd0, |vs|, |body|), body);
      ItemsOutcome(vs, 0, bs, i + 9);
      ListAt(|vs|, body, bs, i, JudgeItems(vs, 0), NormalItems(vs, 0));
    }
  }

  lemma {:induction false} EmptyListAt(bs: bytes, i: nat)
    requires i < |bs| && bs[i] == 0x45
    ensures ReadList(bs, i) == Ok(List([]), i + 1)
  {
    ItemsDone(bs, i + 1);
  }

  lemma {:induction false} MapOutcome(es: seq<Entry>, mode: KeyMode, bs: bytes, i: nat)
    requires Encodable(Map(es)) && Readable(Map(es)) && At(bs, i, Encode(Map(es)))
    requires forall e | e in es :: KeyFits(mode, e.key)
    ensures i < |bs| && bs[i] == 0xd1
    ensures ReadMap(bs, i, mode)
         == Told(JudgeEntries(es, 0, mode), Map(NormalEntries(es, 0, [])), i + |Encode(Map(es))|)
    decreases Map(es), 0, 0
  {
    hide ReadAny, ReadItems, ReadList, ReadMap, ReadEntries, ReadDescribed, ReadComposite,
      UnmarshalComposite, ReadFields, ReadField;
    hide Normal, Hashable, Judge, JudgeEntries;
    var body := EncodeEntries(es, 0);
    AtSplit(bs, i, Header32(0xd1, 2 * |es|, |body|), body);
    EntriesOutcome(es, 0, mode, [], bs, i + 9);
    MapAt(2 * |es|, body, bs, i, mode, JudgeEntries(es, 0, mode), NormalEntries(es, 0, []));
  }

  /**
   What reading any value that Marshal wrote gives, whatever bytes come before and after: its
   normal form, with the index right behind it, unless some map in it has a key Go cannot hash;
   then the first such key decides whether the reader fails or panics.
   */
  lemma {:induction false} ValueOutcome(v: Value, bs: bytes, i: nat)
    requires Encodable(v) && Readable(v) && At(bs, i, Encode(v))
    ensures ReadAny(bs, i) == Told(Judge(v, AnyKey), Normal(v), i + |Encode(v)|)
    decreases v, 0, 2
  {
    hide ReadAny, ReadItems, ReadList, ReadMap, ReadEntries, ReadDescribed, ReadComposite,
      UnmarshalComposite, ReadFields, ReadField;
    hide JudgeItems, JudgeEntries, JudgeFields, EncodeRange, EncodeEntries, EncodeNumArray, EncodeVarArray, EncodeFlags,
      EncodeNum, EncodeVar, Header32, ArrayHeader, NormalItems, NormalEntries, NormalFields, Schema, Fits;
    match v
    case List(vs) => ListOutcome(vs, bs, i); AnyList(bs, i);
    case Map(es) => MapOutcome(es, AnyKey, bs, i); AnyMap(bs, i);
    case Described(d, x) => DescribedOutcome(d, x, bs, i);
    case Composite(code, fs) =>
      CompositeOutcome(code, fs, bs, i);
      NestedAt(code, fs, bs, i);
    case NumArray(_, _) => ArrayOutcome(v, bs, i);
    case BoolArray(_) => ArrayOutcome(v, bs, i);
    case VarArray(_, _) => ArrayOutcome(v, bs, i);
    case _ => ScalarRoundTrip(v, bs, i);
  }

  lemma {:induction false} ArrayOutcome(v: Value, bs: bytes, i: nat)
    requires v.NumArray? || v.BoolArray? || v.VarArray?
    requires Encodable(v) && Readable(v) && At(bs, i, Encode(v))
    ensures ReadAny(bs, i) == Ok(v, i + |Encode(v)|)
  {
    hide ReadAny, ReadArray, Encode, Encodable, Readable;
    ArrayRoundTrip(v, bs, i);
    AnyArray(bs, i);
  }

  /**
   The value tree round trip: reading what Marshal wrote gives the value in normal form and
   stops right behind it, whatever bytes come before and after.
   */
  lemma {:induction false} ValueRoundTrip(v: Value, bs: bytes, i: nat)
    requires Encodable(v) && Faithful(v) && At(bs, i, Encode(v))
    ensures ReadAny(bs, i) == Ok(Normal(v), i + |Encode(v)|)
  {
    hide ReadAny, Encodable, Faithful, Encode, Normal, Judge, Readable;
    FaithfulFine(v, AnyKey);
    ValueOutcome(v, bs, i);
  }

  // ---- described types ---------------------------------------------------------------

  lemma {:induction false} HeadNotUlong(d: Value)
    requires Encodable(d) && !(d.Num? && d.k == Ulong && d.n > 0)
    ensures Encode(d)[0] != 0x53 && Encode(d)[0] != 0x80
  {
    hide EncodeRange, EncodeEntries, EncodeNums, EncodeVars, EncodeFlags, FromBe, EncodeNum, Be, Pow256;
    if d.Num? { NumHead(d.k, d.n); }
  }

  lemma {:induction false} NumHead(k: NumKind, n: int)
    requires InRange(k, n) && !(k == Ulong && n > 0)
    ensures EncodeNum(k, n)[0] != 0x53 && EncodeNum(k, n)[0] != 0x80
  {
    hide FromBe, Pow256, Be;
  }

  lemma {:induction false} PeekUlongAt(n: nat, bs: bytes, i: nat)
    requires InRange(Ulong, n) && n > 0 && At(bs, i + 1, EncodeNum(Ulong, n))
    ensures PeekDescriptor(bs, i) == Some(n)
  {
    hide FromBe;
    var s := EncodeNum(Ulong, n);
    AtHead(bs, i + 1, s);
    AtSplit(bs, i + 1, s[..1], s[1..]) by { assert s == s[..1] + s[1..]; }
    if n < 256 {
      AtHead(bs, i + 2, s[1..]);
    } else {
      assert s[1..] == Be(n, 8);
    }
  }

  /** The descriptor readComposite peeks at is the one that was written. */
  lemma {:induction false} PeekAt(d: Value, bs: bytes, i: nat)
    requires Encodable(d) && At(bs, i, [0x00] + Encode(d))
    ensures PeekDescriptor(bs, i) == Some(if d.Num? && d.k == Ulong then d.n else 0)
  {
    AtSplit(bs, i, [0x00], Encode(d));
    if d.Num? && d.k == Ulong && d.n > 0 {
      PeekUlongAt(d.n, bs, i);
    } else {
      AtHead(bs, i + 1, Encode(d));
      HeadNotUlong(d);
    }
  }

  lemma {:induction false} DescribedOutcome(d: Value, x: Value, bs: bytes, i: nat)
    requires Encodable(d) && Encodable(x) && Readable(d) && Readable(x) && !ReservedDescriptor(d)
    requires At(bs, i, [0x00] + Encode(d) + Encode(x))
    ensures ReadAny(bs, i) == Told(Then(Judge(d, AnyKey), Judge(x, AnyKey)), Described(Normal(d), Normal(x)),
                                   i + 1 + |Encode(d)| + |Encode(x)|)
    decreases Described(d, x), 0, 0
  {
    hide ReadAny, ReadItems, ReadList, ReadMap, ReadEntries, ReadDescribed, ReadComposite,
      UnmarshalComposite, ReadFields, ReadField;
    hide Encode, Encodable, Readable, Normal, Judge;
    AtSplit(bs, i, [0x00] + Encode(d), Encode(x));
    PeekAt(d, bs, i);
    AtSplit(bs, i, [0x00], Encode(d));
    AtHead(bs, i, [0x00]);
    ValueOutcome(d, bs, i + 1);
    ValueOutcome(x, bs, i + 1 + |Encode(d)|);
    DescribedAt(bs, i, Judge(d, AnyKey), Normal(d), i + 1 + |Encode(d)|, Judge(x, AnyKey), Normal(x),
                i + 1 + |Encode(d)| + |Encode(x)|);
  }

  lemma {:induction false} DescribedAt(bs: bytes, i: nat, dd: Verdict, d: Value, j: nat, dx: Verdict, x: Value, m: nat)
    requires i < |bs| && bs[i] == 0x00
    requires PeekDescriptor(bs, i).Some? && var c := PeekDescriptor(bs, i).value; !Refused(c) && !(c < 256 && Nested(c))
    requires ReadAny(bs, i + 1) == Told(dd, d, j) && ReadAny(bs, j) == Told(dx, x, m)
    ensures ReadAny(bs, i) == Told(Then(dd, dx), Described(d, x), m)
  {
    assert ReadComposite(bs, i) == ReadDescribed(bs, i);
  }

  // ---- composites --------------------------------------------------------------------

  lemma {:induction false} NestedAt(code: byte, fs: seq<Value>, bs: bytes, i: nat)
    requires Nested(code) && Encodable(Composite(code, fs)) && At(bs, i, Encode(Composite(code, fs)))
    ensures ReadAny(bs, i) == UnmarshalComposite(bs, i, code)
  {
    var s := Encode(Composite(code, fs));
    assert s[..3] == [0x00, 0x53, code];
    AtSplit(bs, i, s[..3], s[3..]) by { assert s == s[..3] + s[3..]; }
    var q := bs[i..i + 3];
    assert bs[i] == q[0] && bs[i + 1] == q[1] && bs[i + 2] == q[2];
  }

  lemma {:induction false} NumFieldRoundTrip(kind: Kind, v: Value, bs: bytes, i: nat)
    requires v.Num? && Encodable(v) && Fits(kind, v) && kind != KAny && At(bs, i, Encode(v))
    ensures ReadField(bs, i, kind) == Ok(v, i + |Encode(v)|)
  {
    NumRoundTrip(v.k, v.n, bs, i);
    hide ReadNum, EncodeNum;
  }

  lemma {:induction false} FieldOutcome(kind: Kind, v: Value, bs: bytes, i: nat)
    requires v != Null && Encodable(v) && Readable(v) && Fits(kind, v) && At(bs, i, Encode(v))
    ensures ReadField(bs, i, kind) == Told(Judge(v, ModeOf(kind)), Normal(v), i + |Encode(v)|)
    decreases v, 0, 3
  {
    hide ReadField, Encode, Encodable, Readable, Normal, Judge, ReadAny;
    match kind
    case KAny => ValueOutcome(v, bs, i); AnyField(bs, i);
    case KStringMap => MapFieldOutcome(kind, v, bs, i);
    case KAnnotations => MapFieldOutcome(kind, v, bs, i);
    case KError => CompositeFieldOutcome(kind, v, bs, i);
    case KState => CompositeFieldOutcome(kind, v, bs, i);
    case _ => SimpleFieldOutcome(kind, v, bs, i);
  }

  lemma {:induction false} AnyField(bs: bytes, i: nat)
    ensures ReadField(bs, i, KAny) == ReadAny(bs, i)
  {
    hide ReadAny;
  }

  lemma {:induction false} SimpleFieldOutcome(kind: Kind, v: Value, bs: bytes, i: nat)
    requires kind !in {KAny, KStringMap, KAnnotations, KError, KState}
    requires v != Null && Encodable(v) && Readable(v) && Fits(kind, v) && At(bs, i, Encode(v))
    ensures ReadField(bs, i, kind) == Told(Judge(v, ModeOf(kind)), Normal(v), i + |Encode(v)|)
  {
    match kind
    case KBool => hide Encode; BoolRoundTrip(v.b, bs, i); hide ReadBool; BoolLength(v.b);
    case KBinary => hide Encode, ReadVar; BinaryRoundTrip(v, bs, i);
    case KString => hide Encode, ReadString; StringRoundTrip(v, bs, i);
    case KSymbols =>
      hide Encode, ReadArray, ReadField, Encodable, Readable;
      ArrayRoundTrip(v, bs, i);
      SymbolsAt(v.ss, bs, i, i + |Encode(v)|);
    case _ => hide Encode, ReadField; NumFieldRoundTrip(kind, v, bs, i);
  }

  lemma {:induction false} BoolLength(b: bool)
    ensures |Encode(Bool(b))| == 1
  {
  }

  lemma {:induction false} MapFieldOutcome(kind: Kind, v: Value, bs: bytes, i: nat)
    requires (kind.KStringMap? || kind.KAnnotations?) && Fits(kind, v)
    requires Encodable(v) && Readable(v) && At(bs, i, Encode(v))
    ensures ReadField(bs, i, kind) == Told(Judge(v, ModeOf(kind)), Normal(v), i + |Encode(v)|)
    decreases v, 0, 2
  {
    hide ReadMap, NormalEntries, Encode, Encodable, Readable, JudgeEntries;
    MapOutcome(v.entries, ModeOf(kind), bs, i);
  }

  lemma {:induction false} CompositeFieldOutcome(kind: Kind, v: Value, bs: bytes, i: nat)
    requires (kind.KError? || kind.KState?) && Fits(kind, v)
    requires Encodable(v) && Readable(v) && At(bs, i, Encode(v))
    ensures ReadField(bs, i, kind) == Told(Judge(v, ModeOf(kind)), Normal(v), i + |Encode(v)|)
    decreases v, 0, 2
  {
    hide UnmarshalComposite, PeekMessageType, NormalFields, Encode, Encodable, JudgeFields, Schema;
    CompositeOutcome(v.code, v.fields, bs, i);
    StatePeek(v.code, v.fields, bs, i);
  }

  lemma {:induction false} FieldRoundTrip(kind: Kind, v: Value, bs: bytes, i: nat)
    requires v != Null && Encodable(v) && Faithful(v) && Fits(kind, v) && At(bs, i, Encode(v))
    ensures ReadField(bs, i, kind) == Ok(Normal(v), i + |Encode(v)|)
  {
    hide ReadField, Encodable, Faithful, Encode, Normal, Judge, Readable, Fits;
    FaithfulFine(v, ModeOf(kind));
    FieldOutcome(kind, v, bs, i);
  }

  lemma {:induction false} StatePeek(code: byte, fs: seq<Value>, bs: bytes, i: nat)
    requires Encodable(Composite(code, fs)) && At(bs, i, Encode(Composite(code, fs)))
    ensures PeekMessageType(bs, i) == Ok(code, i + 3)
  {
    var s := Encode(Composite(code, fs));
    assert s[..3] == [0x00, 0x53, code];
    AtSplit(bs, i, s[..3], s[3..]) by { assert s == s[..3] + s[3..]; }
    var q := bs[i..i + 3];
    assert bs[i] == q[0] && bs[i + 1] == q[1] && bs[i + 2] == q[2];
  }

  lemma {:induction false} SymbolsAt(ss: seq<bytes>, bs: bytes, i: nat, e: nat)
    requires ReadArray(bs, i) == Ok(VarArray(Symbol, ss), e)
    ensures ReadField(bs, i, KSymbols) == ReadArray(bs, i)
  {
    var h := ReadHeader(bs, i, 0xe0, 0xf0);
    assert h.Ok? && h.next < |bs| && VarCode(bs[h.next]).Some? && VarCode(bs[h.next]).value.0 == Symbol;
  }

  lemma {:induction false} EncodeNull()
    ensures Encode(Null) == [0x40]
  {
  }

  lemma {:induction false} HeadNotNull(v: Value)
    requires Encodable(v) && v != Null
    ensures Encode(v)[0] != 0x40
  {
    hide EncodeRange, EncodeEntries, EncodeNums, EncodeVars, EncodeFlags, Encodable, FromBe;
    match v
    case Num(k, n) => assert Encode(v)[0] == 0x43 || Encode(v)[0] == 0x44 || NumCode(Encode(v)[0]).Some?;
    case _ =>
  }

  /** The fields MarshalComposite writes from index k on. */
  ghost function WrittenFrom(fs: seq<Value>, k: nat): (s: bytes)
    requires k <= |fs| && forall x | x in fs :: Encodable(x)
  {
    if SetCount(fs) <= k then [] else EncodeRange(fs, k, SetCount(fs))
  }

  lemma {:induction false} FieldsStepDefault(bs: bytes, i: nat, schema: seq<Field>, k: nat, n: nat, j: nat,
                                             d: Verdict, r: seq<Value>, m: nat)
    requires k < |schema| && schema[k].onNull.Default?
    requires if k >= n then j == i else i < |bs| && bs[i] == 0x40 && j == i + 1
    requires ReadFields(bs, j, schema, k + 1, n) == Told(d, r, m)
    ensures ReadFields(bs, i, schema, k, n) == Told(d, [schema[k].onNull.v] + r, m)
  {
    hide ReadField;
  }

  lemma {:induction false} FieldsStepValue(bs: bytes, i: nat, schema: seq<Field>, k: nat, n: nat, dv: Verdict, v: Value,
                                           j: nat, d: Verdict, r: seq<Value>, m: nat)
    requires k < n && k < |schema| && i < |bs| && bs[i] != 0x40
    requires ReadField(bs, i, schema[k].kind) == Told(dv, v, j)
    requires ReadFields(bs, j, schema, k + 1, n) == Told(d, r, m)
    ensures ReadFields(bs, i, schema, k, n) == Told(Then(dv, d), [v] + r, m)
  {
    hide ReadField;
  }

  lemma {:induction false} WrittenStep(fs: seq<Value>, k: nat)
    requires k < |fs| && forall x | x in fs :: Encodable(x)
    ensures WrittenFrom(fs, k) ==
            if k < SetCount(fs) then Encode(fs[k]) + WrittenFrom(fs, k + 1) else WrittenFrom(fs, k + 1)
  {
    hide Encode, Encodable, SetCount;
  }

  lemma {:induction false} NormalStep(fs: seq<Value>, schema: seq<Field>, k: nat)
    requires k < |fs| && ReadableFields(fs, schema)
    ensures NormalFields(fs, schema, k) ==
            [if fs[k] == Null then schema[k].onNull.v else Normal(fs[k])] + NormalFields(fs, schema, k + 1)
    ensures JudgeFields(fs, schema, k) ==
            if fs[k] == Null then JudgeFields(fs, schema, k + 1)
            else Then(Judge(fs[k], ModeOf(schema[k].kind)), JudgeFields(fs, schema, k + 1))
  {
    JudgeNull(ModeOf(schema[k].kind));
    hide Normal, Readable, Fits, Judge;
  }

  /** The outcome of fields k.. is their verdict's, and nothing behind them is read. */
  ghost predicate FieldsRead(fs: seq<Value>, schema: seq<Field>, k: nat, bs: bytes, i: nat)
    requires |fs| == |schema| && k <= |fs| && forall x | x in fs :: Encodable(x)
  {
    ReadFields(bs, i, schema, k, SetCount(fs))
    == Told(JudgeFields(fs, schema, k), NormalFields(fs, schema, k), i + |WrittenFrom(fs, k)|)
  }

  lemma {:induction false} OmittedFieldRead(fs: seq<Value>, schema: seq<Field>, k: nat, bs: bytes, i: nat)
    requires ReadableFields(fs, schema) && k < |fs| && forall x | x in fs :: Encodable(x)
    requires fs[k] == Null && At(bs, i, WrittenFrom(fs, k))
    requires FieldsRead(fs, schema, k + 1, bs, if k < SetCount(fs) then i + 1 else i)
    ensures FieldsRead(fs, schema, k, bs, i)
  {
    hide ReadFields, Encode, EncodeRange, Encodable, Readable, Normal, NormalFields, Fits, SetCount, WrittenFrom, JudgeFields;
    WrittenStep(fs, k);
    NormalStep(fs, schema, k);
    EncodeNull();
    var n := SetCount(fs);
    if k < n { AtHead(bs, i, WrittenFrom(fs, k)); }
    FieldsStepDefault(bs, i, schema, k, n, if k < n then i + 1 else i, JudgeFields(fs, schema, k + 1),
                      NormalFields(fs, schema, k + 1), i + |WrittenFrom(fs, k)|);
  }

  lemma {:induction false} SetFieldRead(fs: seq<Value>, schema: seq<Field>, k: nat, bs: bytes, i: nat)
    requires ReadableFields(fs, schema) && k < |fs| && forall x | x in fs :: Encodable(x)
    requires fs[k] != Null && At(bs, i, WrittenFrom(fs, k))
    requires ReadField(bs, i, schema[k].kind)
          == Told(Judge(fs[k], ModeOf(schema[k].kind)), Normal(fs[k]), i + |Encode(fs[k])|)
    requires FieldsRead(fs, schema, k + 1, bs, i + |Encode(fs[k])|)
    ensures FieldsRead(fs, schema, k, bs, i)
  {
    hide ReadField, ReadFields, Encode, EncodeRange, Encodable, Readable, Normal, NormalFields, Fits, SetCount, WrittenFrom,
         Judge, JudgeFields;
    WrittenStep(fs, k);
    NormalStep(fs, schema, k);
    HeadNotNull(fs[k]);
    AtHead(bs, i, WrittenFrom(fs, k));
    FieldsStepValue(bs, i, schema, k, SetCount(fs), Judge(fs[k], ModeOf(schema[k].kind)), Normal(fs[k]),
                    i + |Encode(fs[k])|, JudgeFields(fs, schema, k + 1), NormalFields(fs, schema, k + 1),
                    i + |WrittenFrom(fs, k)|);
  }

  lemma {:induction false} FieldsOutcome(fs: seq<Value>, schema: seq<Field>, k: nat, bs: bytes, i: nat)
    requires ReadableFields(fs, schema) && k <= |fs| && forall x | x in fs :: Encodable(x)
    requires At(bs, i, WrittenFrom(fs, k))
    ensures FieldsRead(fs, schema, k, bs, i)
    decreases fs, |fs| - k, 4
  {
    hide ReadField, ReadFields, Encode, EncodeRange, Encodable, Readable, Normal, Fits, SetCount, WrittenFrom, Judge;
    if k == |fs| {
      FieldsDone(fs, schema, bs, i);
    } else {
      hide FieldsRead, NormalFields, JudgeFields;
      WrittenStep(fs, k);
      if fs[k] == Null {
        EncodeNull();
        if k < SetCount(fs) { AtSplit(bs, i, Encode(fs[k]), WrittenFrom(fs, k + 1)); }
        FieldsOutcome(fs, schema, k + 1, bs, if k < SetCount(fs) then i + 1 else i);
        OmittedFieldRead(fs, schema, k, bs, i);
      } else {
        AtSplit(bs, i, Encode(fs[k]), WrittenFrom(fs, k + 1));
        FieldOutcome(schema[k].kind, fs[k], bs, i);
        FieldsOutcome(fs, schema, k + 1, bs, i + |Encode(fs[k])|);
        SetFieldRead(fs, schema, k, bs, i);
      }
    }
  }

  lemma {:induction false} FieldsDone(fs: seq<Value>, schema: seq<Field>, bs: bytes, i: nat)
    requires |fs| == |schema| && forall x | x in fs :: Encodable(x)
    ensures FieldsRead(fs, schema, |fs|, bs, i)
  {
    hide Encodable, SetCount;
  }

  lemma {:induction false} DescriptorAt(code: byte, bs: bytes, i: nat)
    requires At(bs, i, [0x00, 0x53, code])
    ensures i + 3 <= |bs| && bs[i] == 0x00 && ReadNum(bs, i + 1) == Ok(Num(Ulong, code), i + 3)
  {
    Pow256Small();
    var q := bs[i..i + 3];
    assert bs[i] == q[0] && bs[i + 1] == q[1] && bs[i + 2] == q[2];
    assert bs[i + 2..i + 3] == [code];
    assert [code][..0] == [];
  }

  lemma {:induction false} CompositeOutcome(code: byte, fs: seq<Value>, bs: bytes, i: nat)
    requires ReadableFields(fs, Schema(code)) && Encodable(Composite(code, fs))
    requires At(bs, i, Encode(Composite(code, fs)))
    ensures UnmarshalComposite(bs, i, code)
         == Told(JudgeFields(fs, Schema(code), 0), Composite(code, NormalFields(fs, Schema(code), 0)),
                 i + |Encode(Composite(code, fs))|)
    decreases Composite(code, fs), 0, 0
  {
    hide ReadAny, ReadItems, ReadList, ReadMap, ReadEntries, ReadDescribed, ReadComposite,
      UnmarshalComposite, ReadFields, ReadField;
    hide Encode, Encodable, SetCount, Schema, Readable, NormalFields, JudgeFields;
    var n := SetCount(fs);
    var d := [0x00, 0x53, code];
    var verdict := JudgeFields(fs, Schema(code), 0);
    CompositeBytes(code, fs);
    if n == 0 {
      AtSplit(bs, i, d, [0x45]);
      AtHead(bs, i + 3, [0x45]);
      FieldsOutcome(fs, Schema(code), 0, bs, i + 4);
      DescriptorAt(code, bs, i);
      CompositeAt(code, bs, i, 0, i + 4, verdict, NormalFields(fs, Schema(code), 0), i + 4);
    } else {
      var body := EncodeRange(fs, 0, n);
      var h := Header32(0xd0, n, |body|);
      AtSplit(bs, i, d, h + body);
      Header32RoundTrip(bs, i + 3, 0xc0, 0xd0, n, body);
      ListHeaderAt(bs, i + 3, n, i + 12);
      FieldsOutcome(fs, Schema(code), 0, bs, i + 12);
      DescriptorAt(code, bs, i);
      CompositeAt(code, bs, i, n, i + 12, verdict, NormalFields(fs, Schema(code), 0), i + 12 + |body|);
    }
  }

  /** A composite: trailing omitted fields are dropped, inner ones are null, and all of it comes back. */
  lemma {:induction false} CompositeRoundTrip(code: byte, fs: seq<Value>, bs: bytes, i: nat)
    requires FaithfulFields(fs, Schema(code)) && Encodable(Composite(code, fs))
    requires At(bs, i, Encode(Composite(code, fs)))
    ensures UnmarshalComposite(bs, i, code)
         == Ok(Composite(code, NormalFields(fs, Schema(code), 0)), i + |Encode(Composite(code, fs))|)
  {
    hide UnmarshalComposite, Encode, Encodable, Schema, NormalFields, JudgeFields, FaithfulFields, ReadableFields;
    FaithfulFieldsFine(fs, Schema(code), 0);
    CompositeOutcome(code, fs, bs, i);
  }

  lemma {:induction false} ListHeaderAt(bs: bytes, i: nat, n: nat, j: nat)
    requires ReadHeader(bs, i, 0xc0, 0xd0) == Ok(n, j)
    ensures ReadListHeader(bs, i) == Ok(n, j)
  {
  }

  lemma {:induction false} CompositeBytes(code: byte, fs: seq<Value>)
    requires Encodable(Composite(code, fs))
    ensures var n := SetCount(fs);
            Encode(Composite(code, fs)) == [0x00, 0x53, code] +
              if n == 0 then [0x45]
              else Header32(0xd0, n, |EncodeRange(fs, 0, n)|) + EncodeRange(fs, 0, n)
    ensures |fs| < MOD32 && forall x | x in fs :: Encodable(x)
  {
  }

  lemma {:induction false} CompositeAt(code: byte, bs: bytes, i: nat, n: nat, m: nat, d: Verdict, r: seq<Value>, e: nat)
    requires i + 3 <= |bs| && bs[i] == 0x00 && ReadNum(bs, i + 1) == Ok(Num(Ulong, code), i + 3)
    requires ReadListHeader(bs, i + 3) == Ok(n, m) && n <= |Schema(code)|
    requires ReadFields(bs, m, Schema(code), 0, n) == Told(d, r, e)
    ensures UnmarshalComposite(bs, i, code) == Told(d, Composite(code, r), e)
  {
    hide Schema, ReadFields, ReadNum, ReadListHeader;
  }

  // ---- where the round trip stops ----------------------------------------------------

  /** A described type with an unsigned-long descriptor comes back exactly when the code is not reserved. */
  lemma {:induction false} DescribedExact(n: nat, x: Value, bs: bytes, i: nat)
    requires InRange(Ulong, n) && Encodable(x) && Faithful(x)
    requires At(bs, i, Encode(Described(Num(Ulong, n), x)))
    ensures ReadAny(bs, i) == Ok(Described(Num(Ulong, n), Normal(x)), i + |Encode(Described(Num(Ulong, n), x))|)
       <==> !(n < 256 && (Nested(n) || Refused(n)))
  {
    var d := Num(Ulong, n);
    if ReservedDescriptor(d) {
      AtSplit(bs, i, [0x00] + Encode(d), Encode(x));
      PeekAt(d, bs, i);
      AtHead(bs, i, [0x00] + Encode(d));
      assert ReadAny(bs, i) == ReadComposite(bs, i);
    } else {
      ValueRoundTrip(Described(d, x), bs, i);
    }
  }

  /** A numeric array comes back as itself exactly when narrowing loses nothing. */
  lemma {:induction false} NumArrayExact(k: NumKind, ns: seq<int>, bs: bytes, i: nat)
    requires |ns| < MOD32 && (forall n | n in ns :: InRange(k, n)) && At(bs, i, EncodeNumArray(k, ns))
    ensures ReadArray(bs, i) == Ok(NumArray(k, ns), i + |EncodeNumArray(k, ns)|)
       <==> (k != Int && k != Long) || (exists n | n in ns :: n > 127) || (forall n | n in ns :: n >= -128)
  {
    NumArrayReread(k, ns, bs, i);
    if FaithfulNums(k, ns) {
      RereadSame(k, ns);
    } else {
      var t :| 0 <= t < |ns| && ns[t] < -128;
      Pow256Small();
      assert InRange(k, ns[t]);
      assert RereadAll(k, 1, ns)[t] >= -128;
    }
  }

  /** A string, symbol or binary array that ends the buffer comes back exactly when few elements are empty. */
  lemma {:induction false} VarArrayExact(k: VarKind, ss: seq<bytes>)
    requires |ss| < MOD32 && forall t | 0 <= t < |ss| :: |ss[t]| < MOD32
    ensures var s := EncodeVarArray(k, ss);
            ReadArray(s, 0) == Ok(VarArray(k, ss), |s|) <==> WideVarArray(ss) || |ss| <= 1 + TotalLen(ss)
  {
    VarArrayReread(k, ss, EncodeVarArray(k, ss), 0);
  }

  /** An int array that does not: -129 alone is written in one byte and read as 127. */
  lemma {:induction false} NarrowingLoses()
    ensures var s := EncodeNumArray(Int, [-129]); ReadArray(s, 0) == Ok(NumArray(Int, [127]), |s|)
  {
    var s := EncodeNumArray(Int, [-129]);
    assert -129 in [-129];
    NumArrayReread(Int, [-129], s, 0);
    assert Residue(-129, 1) == 127;
    Pow256Small();
    assert RereadAll(Int, 1, [-129])[0] == 127;
    assert RereadAll(Int, 1, [-129]) == [127];
  }

  /** A string array that does not: two empty strings, and nothing after them. */
  lemma {:induction false} EmptyStringsRefused()
    ensures ReadArray(EncodeVarArray(Str, [[], []]), 0) == Err
  {
    var ss: seq<bytes> := [[], []];
    VarArrayReread(Str, ss, EncodeVarArray(Str, ss), 0);
    assert ss[1..] == [[]] && ss[1..][1..] == [];
    assert TotalLen(ss) == 0;
  }

  /** The first key that Go cannot hash. */
  predicate FirstUnhashable(es: seq<Entry>, t: nat) {
    t < |es| && !Hashable(es[t].key) && forall u | 0 <= u < t :: Hashable(es[u].key)
  }

  lemma {:induction false} JudgeFirst(es: seq<Entry>, k: nat, mode: KeyMode, t: nat)
    requires k <= |es| && (forall e | e in es :: Faithful(e.key) && Faithful(e.val)) && !mode.StringKey?
    requires k <= t <= |es| && (t < |es| ==> !Hashable(es[t].key)) && forall u | k <= u < t :: Hashable(es[u].key)
    ensures JudgeEntries(es, k, mode) == if t == |es| then Fine else JudgeKey(mode, es[t].key)
    decreases t - k
  {
    hide Faithful, Judge, Hashable;
    if k < |es| {
      FaithfulFine(es[k].key, AnyKey);
      FaithfulFine(es[k].val, AnyKey);
      if k < t { JudgeFirst(es, k + 1, mode, t); }
    }
  }

  lemma {:induction false} UnhashableOrNot(es: seq<Entry>, k: nat) returns (t: nat)
    requires k <= |es| && forall u | 0 <= u < k :: Hashable(es[u].key)
    ensures t <= |es| && (forall u | 0 <= u < t :: Hashable(es[u].key)) && (t < |es| ==> FirstUnhashable(es, t))
    decreases |es| - k
  {
    hide Hashable;
    if k == |es| || !Hashable(es[k].key) { t := k; } else { t := UnhashableOrNot(es, k + 1); }
  }

  /**
   A map whose keys and values come back by themselves is read back exactly when Go can hash every
   key, or the reader takes only strings; it brings the reader down exactly when the first key Go
   cannot hash is described, or is an annotation's; otherwise it is refused.
   */
  lemma {:induction false} MapExact(es: seq<Entry>, mode: KeyMode, bs: bytes, i: nat)
    requires Encodable(Map(es)) && At(bs, i, Encode(Map(es)))
    requires forall e | e in es :: Faithful(e.key) && Faithful(e.val) && KeyFits(mode, e.key)
    ensures var r := ReadMap(bs, i, mode);
            && (r.Ok? <==> mode.StringKey? || forall u | 0 <= u < |es| :: Hashable(es[u].key))
            && (r.Ok? ==> r == Ok(Normal(Map(es)), i + |Encode(Map(es))|))
            && (r.Panic? <==> !mode.StringKey?
                              && exists t: nat :: FirstUnhashable(es, t) && (mode.AnnotationKey? || es[t].key.Described?))
  {
    hide ReadMap, Encodable, Encode, Faithful, Judge, JudgeEntries, Hashable, NormalEntries;
    forall e | e in es ensures Readable(e.key) && Readable(e.val) {
      FaithfulFine(e.key, AnyKey);
      FaithfulFine(e.val, AnyKey);
    }
    MapOutcome(es, mode, bs, i);
    if mode.StringKey? {
      StringsFine(es, 0);
    } else {
      var t := UnhashableOrNot(es, 0);
      JudgeFirst(es, 0, mode, t);
      if t < |es| {
        assert FirstUnhashable(es, t);
        forall u: nat | FirstUnhashable(es, u) ensures u == t {}
      }
    }
  }

  lemma {:induction false} StringsFine(es: seq<Entry>, k: nat)
    requires k <= |es| && forall e | e in es :: Faithful(e.val)
    ensures JudgeEntries(es, k, StringKey) == Fine
    decreases |es| - k
  {
    hide Faithful, Judge;
    if k < |es| {
      FaithfulFine(es[k].val, AnyKey);
      StringsFine(es, k + 1);
    }
  }
}
