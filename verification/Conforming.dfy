/** The encoder against the standard: what Marshal writes is a proper form of the value it was given. */
module Conforming {
  import opened Words
  import opened Values
  import opened Decoder
  import opened Buffers
  import opened RoundTrip
  import opened Spelling
  import opened Conformance

  // ---- the forms chosen --------------------------------------------------------------

  ghost function NumForm(k: NumKind, n: int): (t: Form)
    requires InRange(k, n)
  {
    if (k == Uint || k == Ulong) && n == 0 then NumF(if k == Uint then 0x43 else 0x44, [])
    else if (k == Uint || k == Ulong) && n < 256 then NumF(if k == Uint then 0x52 else 0x53, [n])
    else if (k == Int || k == Long) && -128 <= n < 128 then NumF(if k == Int then 0x54 else 0x55, [n % 256])
    else NumF(WideCode(k), Be(Raw(n, Width(k)), Width(k)))
  }

  function VarForm(k: VarKind, s: bytes): (t: Form) {
    VarF(if |s| < 256 then Code8(k) else Code32(k), s)
  }

  ghost function Datas(ns: seq<int>, w: nat): (ds: seq<bytes>)
    ensures |ds| == |ns| && forall k | 0 <= k < |ns| :: ds[k] == Be(Residue(ns[k], w), w)
  {
    if ns == [] then [] else [Be(Residue(ns[0], w), w)] + Datas(ns[1..], w)
  }

  ghost function FormOf(v: Value): (t: Form)
    requires Encodable(v)
    ensures t == NullF <==> v == Null
    decreases v, 0, 0
  {
    match v
    case Null => NullF
    case Bool(b) => if b then TrueF else FalseF
    case Num(k, n) => NumForm(k, n)
    case Var(k, s) => VarForm(k, s)
    case List(vs) => if vs == [] then List0F else ListF(true, Forms(vs, 0, |vs|))
    case Map(es) => MapF(true, PairForms(es, 0))
    case Described(d, x) => DescribedF(FormOf(d), FormOf(x))
    case Composite(code, fs) =>
      var n := SetCount(fs);
      CompositeF(false, code, if n == 0 then Empty else Wide, Forms(fs, 0, n))
    case NumArray(k, ns) =>
      var narrow := NarrowArray(k, ns);
      var w := if narrow then 1 else Width(k);
      NumArrayF(|ns| * w + 2 > 255, if narrow then SmallCode(k).value else WideCode(k), Datas(ns, w))
    case BoolArray(bs) => BoolArrayF(|bs| + 2 > 255, bs)
    case VarArray(k, ss) =>
      var w := if WideVarArray(ss) then 4 else 1;
      VarArrayF(TotalLen(ss) + |ss| * w + 2 > 255, if w == 4 then Code32(k) else Code8(k), ss)
  }

  ghost function Forms(vs: seq<Value>, k: nat, n: nat): (ts: seq<Form>)
    requires k <= n <= |vs| && forall x | x in vs :: Encodable(x)
    ensures |ts| == n - k && forall j | 0 <= j < n - k :: ts[j] == FormOf(vs[k + j])
    decreases vs, n - k, 1
  {
    if k == n then [] else [FormOf(vs[k])] + Forms(vs, k + 1, n)
  }

  ghost function PairForm(e: Entry): (p: PairF)
    requires Encodable(e.key) && Encodable(e.val)
    decreases e, 0, 1
  {
    PairF(FormOf(e.key), FormOf(e.val))
  }

  ghost function PairForms(es: seq<Entry>, k: nat): (ps: seq<PairF>)
    requires k <= |es| && forall e | e in es :: Encodable(e.key) && Encodable(e.val)
    ensures |ps| == |es| - k && forall j | 0 <= j < |es| - k :: ps[j] == PairForm(es[k + j])
    decreases es, |es| - k, 1
  {
    if k == |es| then [] else [PairForm(es[k])] + PairForms(es, k + 1)
  }

  // ---- scalars -----------------------------------------------------------------------

  lemma {:induction false} NumFormIs(k: NumKind, n: int)
    requires InRange(k, n)
    ensures var t := NumForm(k, n);
            && Proper(t) && Bytes(t) == EncodeNum(k, n) && Meaning(t) == Num(k, n) && FixedType(t.code) == Some(k)
            && (!Signed(k) ==> FromBe(t.data) == n)
  {
    hide FromBe, NumberIn, Proper, Bytes, Meaning, FixedType, FixedWidth, Pow256, Be;
    var t := NumForm(k, n);
    if (k == Uint || k == Ulong) && n == 0 {
      NoBytes();
      RawIs(k, []);
      FormIs(k, n, t.code, t.data);
    } else if ((k == Uint || k == Ulong) && n < 256) || ((k == Int || k == Long) && -128 <= n < 128) {
      SmallRoundTrip(k, n);
      OneIs(n % 256);
      RawIs(k, [n % 256]);
      FormIs(k, n, t.code, t.data);
    } else {
      WideFormIs(k, n);
      RawIs(k, t.data);
      FormIs(k, n, t.code, t.data);
    }
    NumBytesAre(k, n);
  }

  lemma {:induction false} FormIs(k: NumKind, n: int, code: byte, data: bytes)
    requires NumberIn(k, data) == n
    requires || (code == 0x43 && k == Uint && |data| == 0) || (code == 0x44 && k == Ulong && |data| == 0)
             || (code == 0x52 && k == Uint && |data| == 1) || (code == 0x53 && k == Ulong && |data| == 1)
             || (code == 0x54 && k == Int && |data| == 1) || (code == 0x55 && k == Long && |data| == 1)
             || (code == WideCode(k) && |data| == Width(k))
    ensures Proper(NumF(code, data)) && Meaning(NumF(code, data)) == Num(k, n) && FixedType(code) == Some(k)
    ensures !Signed(k) ==> FromBe(data) == n
  {
    hide FromBe, Pow256;
  }

  lemma {:induction false} NumBytesAre(k: NumKind, n: int)
    requires InRange(k, n)
    ensures Bytes(NumForm(k, n)) == EncodeNum(k, n)
  {
    hide Be, Pow256;
  }

  lemma {:induction false} NoBytes()
    ensures FromBe([]) == 0
  {
  }

  lemma {:induction false} WideFormIs(k: NumKind, n: int)
    requires InRange(k, n)
    ensures var w := Width(k); 0 <= Raw(n, w) < Pow256(w) && FromRaw(k, w, Raw(n, w)) == n
  {
    hide Pow256;
  }

  lemma {:induction false} FourBe(n: uint32)
    ensures n < Pow256(4) && Be(n, 4) == Four(n)
  {
    Be4(n);
  }

  lemma {:induction false} VarFormIs(k: VarKind, s: bytes)
    requires |s| < MOD32
    ensures var t := VarForm(k, s);
            Proper(t) && Bytes(t) == EncodeVar(k, s) && Meaning(t) == Var(if k == Symbol then Str else k, s)
  {
    FourBe(|s|);
    hide Be;
  }

  // ---- compounds ---------------------------------------------------------------------

  lemma {:induction false} WideCompound(short: byte, long: byte, count: nat, body: bytes)
    ensures Compound(short, long, true, count, body) == Header32(long, count, |body|) + body
  {
    FourBe(Low32(4 + |body|));
    FourBe(Low32(count));
    hide Be, Four;
  }

  lemma {:induction false} ArrayIs(count: nat, size: nat, elem: byte, data: bytes)
    requires |data| == size && count <= size
    ensures Array(size + 2 > 255, count, elem, data) == ArrayHeader(count, size, elem) + data
  {
    FourBe(Low32(size + 5));
    FourBe(Low32(count));
    hide Be, Four;
  }

  lemma {:induction false} DatasJoined(ns: seq<int>, w: nat)
    ensures Joined(Datas(ns, w)) == EncodeNums(ns, w)
  {
    hide Be, Residue;
    if ns != [] {
      DatasJoined(ns[1..], w);
      assert Datas(ns, w)[1..] == Datas(ns[1..], w);
    }
  }

  lemma {:induction false} FlagsSame(bs: seq<bool>)
    ensures FlagBytes(bs) == EncodeFlags(bs)
  {
    if bs != [] { FlagsSame(bs[1..]); }
  }

  lemma {:induction false} VarSame(code: byte, s: bytes)
    requires (code / 16 == 0xa || code / 16 == 0xb) && |s| < if code / 16 == 0xa then 0x100 else MOD32
    ensures |s| < Pow256(SizeWidth(code)) && Sized(code, s) == Be(|s|, SizeWidth(code)) + s
  {
    Pow256Small();
    hide Be, Pow256, Four;
    if code / 16 == 0xa { Be1(|s|); } else { FourBe(|s|); }
  }

  lemma {:induction false} VarsSame(code: byte, ss: seq<bytes>)
    requires code / 16 == 0xa || code / 16 == 0xb
    requires forall t | 0 <= t < |ss| :: |ss[t]| < if code / 16 == 0xa then 0x100 else MOD32
    ensures forall t | 0 <= t < |ss| :: |ss[t]| < Pow256(SizeWidth(code))
    ensures SizedAll(code, ss) == EncodeVars(ss, SizeWidth(code))
  {
    hide Be, Pow256, Sized, SizeWidth;
    forall t | 0 <= t < |ss| ensures |ss[t]| < Pow256(SizeWidth(code)) {
      VarSame(code, ss[t]);
    }
    if ss != [] {
      VarSame(code, ss[0]);
      VarsSame(code, ss[1..]);
    }
  }

  lemma {:induction false} NumArrayForm(k: NumKind, ns: seq<int>)
    requires forall n | n in ns :: InRange(k, n)
    ensures Bytes(FormOf(NumArray(k, ns))) == EncodeNumArray(k, ns)
  {
    hide Array, ArrayHeader, Joined, EncodeNums, Datas;
    var w := if NarrowArray(k, ns) then 1 else Width(k);
    DatasJoined(ns, w);
    assert |ns| <= |ns| * w;
    ArrayIs(|ns|, |ns| * w, if NarrowArray(k, ns) then SmallCode(k).value else WideCode(k), EncodeNums(ns, w));
  }

  lemma {:induction false} VarArrayForm(k: VarKind, ss: seq<bytes>)
    requires Encodable(VarArray(k, ss))
    ensures Bytes(FormOf(VarArray(k, ss))) == EncodeVarArray(k, ss)
  {
    hide Array, ArrayHeader, SizedAll, EncodeVars, TotalLen;
    var w := if WideVarArray(ss) then 4 else 1;
    var code := if w == 4 then Code32(k) else Code8(k);
    VarsSame(code, ss);
    VarsSize(ss, w);
    ArrayIs(|ss|, TotalLen(ss) + |ss| * w, code, EncodeVars(ss, w));
  }

  // ---- bytes -------------------------------------------------------------------------

  /** The bytes Marshal appends are those of the form it chose. */
  lemma {:induction false} FormBytes(v: Value)
    requires Encodable(v)
    ensures Bytes(FormOf(v)) == Encode(v)
    decreases v, 0, 2
  {
    hide Compound, Header32, Array, ArrayHeader, EncodeNum, EncodeVar, EncodeNumArray, EncodeVarArray, EncodeFlags, FlagBytes,
      EncodeRange, EncodeEntries, ItemBytes, PairBytes, Forms, PairForms, NumForm, VarForm, Datas, Sized, Joined, SizedAll,
      SetCount, TotalLen;
    match v
    case Num(k, n) => NumFormIs(k, n);
    case Var(k, s) => VarFormIs(k, s);
    case List(vs) =>
      if vs != [] {
        FormsBytes(vs, 0, |vs|);
        WideCompound(0xc0, 0xd0, |vs|, EncodeRange(vs, 0, |vs|));
      }
    case Map(es) =>
      PairsBytes(es, 0);
      WideCompound(0xc1, 0xd1, 2 * |es|, EncodeEntries(es, 0));
    case Described(d, x) => FormBytes(d); FormBytes(x);
    case Composite(code, fs) => CompositeBytesAre(code, fs);
    case NumArray(k, ns) => NumArrayForm(k, ns);
    case BoolArray(bs) => FlagsSame(bs); ArrayIs(|bs|, |bs|, 0x56, EncodeFlags(bs));
    case VarArray(k, ss) => VarArrayForm(k, ss);
    case _ =>
  }

  lemma {:induction false} CompositeBytesAre(code: byte, fs: seq<Value>)
    requires Encodable(Composite(code, fs))
    ensures Bytes(FormOf(Composite(code, fs))) == Encode(Composite(code, fs))
    decreases Composite(code, fs), 0, 1
  {
    hide Compound, Header32, EncodeRange, ItemBytes, Forms, SetCount;
    var n := SetCount(fs);
    FormsBytes(fs, 0, n);
    WideCompound(0xc0, 0xd0, n, EncodeRange(fs, 0, n));
  }

  lemma {:induction false} FormsBytes(vs: seq<Value>, k: nat, n: nat)
    requires k <= n <= |vs| && forall x | x in vs :: Encodable(x)
    ensures ItemBytes(Forms(vs, k, n), 0) == EncodeRange(vs, k, n)
    decreases vs, n - k, 3
  {
    hide Bytes, Encode, Encodable, FormOf;
    if k < n {
      FormBytes(vs[k]);
      FormsBytes(vs, k + 1, n);
      ItemShift([FormOf(vs[k])] + Forms(vs, k + 1, n), 0);
      assert ([FormOf(vs[k])] + Forms(vs, k + 1, n))[1..] == Forms(vs, k + 1, n);
    }
  }

  lemma {:induction false} ItemShift(ts: seq<Form>, k: nat)
    requires k < |ts|
    ensures ItemBytes(ts, k) == Bytes(ts[k]) + ItemBytes(ts[k + 1..], 0)
    decreases |ts| - k
  {
    hide Bytes;
    ItemsFrom(ts, k + 1, ts[k + 1..], 0);
  }

  lemma {:induction false} ItemsFrom(ts: seq<Form>, k: nat, us: seq<Form>, j: nat)
    requires k <= |ts| && j <= |us| && ts[k..] == us[j..]
    ensures ItemBytes(ts, k) == ItemBytes(us, j)
    decreases |ts| - k
  {
    hide Bytes;
    assert |ts| - k == |ts[k..]| == |us[j..]| == |us| - j;
    if k < |ts| {
      assert ts[k] == ts[k..][0] == us[j..][0] == us[j];
      assert ts[k + 1..] == ts[k..][1..] == us[j + 1..];
      ItemsFrom(ts, k + 1, us, j + 1);
    }
  }

  lemma {:induction false} PairsFrom(ts: seq<PairF>, k: nat, us: seq<PairF>, j: nat)
    requires k <= |ts| && j <= |us| && ts[k..] == us[j..]
    ensures PairBytes(ts, k) == PairBytes(us, j)
    decreases |ts| - k
  {
    hide OnePair;
    assert |ts| - k == |ts[k..]| == |us[j..]| == |us| - j;
    if k < |ts| {
      assert ts[k] == ts[k..][0] == us[j..][0] == us[j];
      assert ts[k + 1..] == ts[k..][1..] == us[j + 1..];
      PairsFrom(ts, k + 1, us, j + 1);
    }
  }

  lemma {:induction false} PairsBytes(es: seq<Entry>, k: nat)
    requires k <= |es| && forall e | e in es :: Encodable(e.key) && Encodable(e.val)
    ensures PairBytes(PairForms(es, k), 0) == EncodeEntries(es, k)
    decreases es, |es| - k, 4
  {
    hide Encode, Encodable, FormOf, OnePair, PairForm, EncodeEntry;
    if k < |es| {
      PairBytesAre(es[k]);
      PairsBytes(es, k + 1);
      var ps := PairForms(es, k);
      assert ps == [PairForm(es[k])] + PairForms(es, k + 1);
      PairsFrom(ps, 1, PairForms(es, k + 1), 0);
    }
  }

  lemma {:induction false} PairBytesAre(e: Entry)
    requires Encodable(e.key) && Encodable(e.val)
    ensures OnePair(PairForm(e)) == EncodeEntry(e)
    decreases e, 0, 3
  {
    hide Bytes, Encode, Encodable, FormOf;
    FormBytes(e.key);
    FormBytes(e.val);
  }

  // ---- meaning -----------------------------------------------------------------------

  /** Sizes up to 4 GiB, which the four-byte size fields can state. */
  ghost predicate Sizeable(v: Value)
    requires Encodable(v)
  {
    |Encode(v)| < MOD32
  }

  /**
   What Marshal writes for a value is a proper form of it, and stands for the value in normal form; any
   reader that follows the standard gets it.
   */
  lemma {:induction false} EncodeConforms(v: Value)
    requires Encodable(v) && Faithful(v) && Sizeable(v)
    ensures var t := FormOf(v); Proper(t) && Bytes(t) == Encode(v) && Meaning(t) == Normal(v)
    decreases v, 0, 2
  {
    hide Compound, Header32, Array, ArrayHeader, EncodeNum, EncodeVar, EncodeNumArray, EncodeVarArray, EncodeFlags, FlagBytes,
      EncodeRange, EncodeEntries, ItemBytes, PairBytes, Forms, PairForms, NumForm, VarForm, Datas, Sized, Joined, SizedAll,
      SetCount, TotalLen, Meanings, Entries, NormalItems, NormalEntries, CompoundFits, ArrayFits, Bytes, Encode, Proper,
      Meaning, Normal, Faithful;
    FormBytes(v);
    match v
    case List(vs) => ListConforms(vs);
    case Map(es) => MapConforms(es);
    case Described(d, x) => DescribedConforms(d, x);
    case Composite(code, fs) => CompositeConforms(code, fs);
    case NumArray(k, ns) => NumArrayConforms(k, ns);
    case BoolArray(bs) => BoolArrayConforms(bs);
    case VarArray(k, ss) => VarArrayConforms(k, ss);
    case _ => ScalarConforms(v);
  }

  lemma {:induction false} ScalarConforms(v: Value)
    requires (v.Null? || v.Bool? || v.Num? || v.Var?) && Encodable(v)
    ensures Proper(FormOf(v)) && Meaning(FormOf(v)) == Normal(v)
  {
    match v
    case Num(k, n) => hide NumForm, Proper, Meaning; NumFormIs(k, n);
    case Var(k, s) => hide VarForm, Proper, Meaning; VarFormIs(k, s);
    case _ =>
  }

  lemma {:induction false} RangePart(vs: seq<Value>, k: nat, n: nat, j: nat)
    requires k <= j < n <= |vs| && forall x | x in vs :: Encodable(x)
    ensures |Encode(vs[j])| <= |EncodeRange(vs, k, n)|
    decreases n - k
  {
    hide Encode, Encodable;
    if k < j { RangePart(vs, k + 1, n, j); }
  }

  lemma {:induction false} EntriesPart(es: seq<Entry>, k: nat, j: nat)
    requires k <= j < |es| && forall e | e in es :: Encodable(e.key) && Encodable(e.val)
    ensures |Encode(es[j].key)| + |Encode(es[j].val)| <= |EncodeEntries(es, k)|
    decreases |es| - k
  {
    hide Encode, Encodable;
    if k < j { EntriesPart(es, k + 1, j); }
  }

  lemma {:induction false} ListConforms(vs: seq<Value>)
    requires Encodable(List(vs)) && Faithful(List(vs)) && Sizeable(List(vs))
    ensures Proper(FormOf(List(vs))) && Meaning(FormOf(List(vs))) == Normal(List(vs))
    decreases List(vs), 0, 1
  {
    if vs == [] {
      assert NormalItems(vs, 0) == [];
    } else {
      hide Compound, EncodeRange, ItemBytes, Forms, Meanings, NormalItems;
      var ts := Forms(vs, 0, |vs|);
      FormsBytes(vs, 0, |vs|);
      forall j | 0 <= j < |vs| ensures Proper(ts[j]) && Meaning(ts[j]) == Normal(vs[j]) {
        RangePart(vs, 0, |vs|, j);
        EncodeConforms(vs[j]);
      }
      MeaningsAre(vs, 0);
    }
  }

  lemma {:induction false} MeaningsAre(vs: seq<Value>, k: nat)
    requires k <= |vs| && forall x | x in vs :: Encodable(x)
    requires forall j | 0 <= j < |vs| :: Meaning(FormOf(vs[j])) == Normal(vs[j])
    ensures Meanings(Forms(vs, 0, |vs|), k) == NormalItems(vs, k)
    decreases |vs| - k
  {
    hide Meaning, Normal, FormOf, Encodable;
    if k < |vs| { MeaningsAre(vs, k + 1); }
  }

  lemma {:induction false} PairConforms(e: Entry)
    requires Encodable(e.key) && Encodable(e.val) && Faithful(e.key) && Faithful(e.val) && Hashable(e.key)
    requires Sizeable(e.key) && Sizeable(e.val)
    ensures var p := PairForm(e);
            Proper(p.key) && Proper(p.val) && KeyF(p.key) && OneEntry(p) == NormalEntry(e)
    decreases e, 0, 3
  {
    hide Proper, Meaning, Normal, FormOf, Encodable, Faithful, Hashable, KeyF, Bytes, Encode;
    EncodeConforms(e.key);
    EncodeConforms(e.val);
    KeyIs(FormOf(e.key));
    HashableNormal(e.key);
  }

  lemma {:induction false} MapConforms(es: seq<Entry>)
    requires Encodable(Map(es)) && Faithful(Map(es)) && Sizeable(Map(es))
    ensures Proper(FormOf(Map(es))) && Meaning(FormOf(Map(es))) == Normal(Map(es))
    decreases Map(es), 0, 1
  {
    hide Compound, EncodeEntries, PairBytes, PairForms, Entries, NormalEntries, Hashable;
    var ps := PairForms(es, 0);
    PairsBytes(es, 0);
    forall j | 0 <= j < |es|
      ensures Proper(ps[j].key) && Proper(ps[j].val) && KeyF(ps[j].key) && OneEntry(ps[j]) == NormalEntry(es[j])
    {
      EntriesPart(es, 0, j);
      PairConforms(es[j]);
    }
    EntriesAre(es, 0, []);
  }

  lemma {:induction false} EntriesAre(es: seq<Entry>, k: nat, acc: seq<Entry>)
    requires k <= |es| && forall e | e in es :: Encodable(e.key) && Encodable(e.val)
    requires forall j | 0 <= j < |es| :: OneEntry(PairForm(es[j])) == NormalEntry(es[j])
    ensures Entries(PairForms(es, 0), k, acc) == NormalEntries(es, k, acc)
    decreases |es| - k
  {
    hide OneEntry, NormalEntry, PairForm, Encodable, Insert;
    if k < |es| {
      var e := NormalEntry(es[k]);
      EntriesAre(es, k + 1, Insert(acc, e.key, e.val));
    }
  }

  lemma {:induction false} DescriptorsAgree(d: Value)
    requires Encodable(d)
    ensures NamesComposite(FormOf(d)) == ReservedDescriptor(d)
  {
    hide Forms, PairForms, Datas, NumForm, SetCount, TotalLen, FixedType, FromBe;
    if d.Num? {
      NumFormIs(d.k, d.n);
      NumIsNum(d.k, d.n);
    }
  }

  lemma {:induction false} NumIsNum(k: NumKind, n: int)
    requires InRange(k, n)
    ensures NumForm(k, n).NumF?
  {
  }

  lemma {:induction false} DescribedConforms(d: Value, x: Value)
    requires Encodable(Described(d, x)) && Faithful(Described(d, x)) && Sizeable(Described(d, x))
    ensures Proper(FormOf(Described(d, x))) && Meaning(FormOf(Described(d, x))) == Normal(Described(d, x))
    decreases Described(d, x), 0, 1
  {
    DescribedForm(d, x);
    DescribedParts(FormOf(d), FormOf(x));
    hide NamesComposite, ReservedDescriptor, FormOf, Proper, Meaning, Normal, Faithful, Encodable, Encode, Bytes;
    DescriptorsAgree(d);
    EncodeConforms(d);
    EncodeConforms(x);
  }

  lemma {:induction false} DescribedForm(d: Value, x: Value)
    requires Encodable(Described(d, x)) && Faithful(Described(d, x))
    ensures Encodable(d) && Encodable(x) && FormOf(Described(d, x)) == DescribedF(FormOf(d), FormOf(x))
    ensures Faithful(d) && Faithful(x) && !ReservedDescriptor(d)
    ensures |Encode(Described(d, x))| == 1 + |Encode(d)| + |Encode(x)|
    ensures Normal(Described(d, x)) == Described(Normal(d), Normal(x))
  {
    hide ReservedDescriptor;
  }

  lemma {:induction false} NumDatasMean(k: NumKind, w: nat, ns: seq<int>)
    requires forall t | 0 <= t < |ns| :: FromRaw(k, w, Residue(ns[t], w)) == ns[t]
    ensures Numbers(k, Datas(ns, w)) == ns
  {
    hide FromRaw, Residue, NumberIn;
    if ns != [] {
      RawIs(k, Be(Residue(ns[0], w), w));
      NumDatasMean(k, w, ns[1..]);
      assert Datas(ns, w)[1..] == Datas(ns[1..], w);
      assert ns == [ns[0]] + ns[1..];
    }
  }

  lemma {:induction false} ArrayCode(k: NumKind, ns: seq<int>)
    ensures var code := if NarrowArray(k, ns) then SmallCode(k).value else WideCode(k);
            FixedType(code) == Some(k) && FixedWidth(code) == Some(ArrayWidth(k, ns))
  {
  }

  lemma {:induction false} NumArrayConforms(k: NumKind, ns: seq<int>)
    requires Encodable(NumArray(k, ns)) && Faithful(NumArray(k, ns)) && Sizeable(NumArray(k, ns))
    ensures Proper(FormOf(NumArray(k, ns))) && Meaning(FormOf(NumArray(k, ns))) == Normal(NumArray(k, ns))
  {
    hide Joined, EncodeNums, Datas, Numbers, FixedType, FixedWidth, NarrowArray, WideCode, SmallCode, Width, Low32;
    var w := ArrayWidth(k, ns);
    ArrayCode(k, ns);
    DatasJoined(ns, w);
    RereadSame(k, ns);
    forall t | 0 <= t < |ns| ensures FromRaw(k, w, Residue(ns[t], w)) == ns[t] {
      assert RereadAll(k, w, ns)[t] == ns[t];
    }
    NumDatasMean(k, w, ns);
    assert |ns| <= |ns| * w by { WidthPositive(k, ns); }
  }

  lemma {:induction false} WidthPositive(k: NumKind, ns: seq<int>)
    ensures ArrayWidth(k, ns) >= 1 && |ns| <= |ns| * ArrayWidth(k, ns)
  {
  }

  lemma {:induction false} BoolArrayConforms(bs: seq<bool>)
    requires Sizeable(BoolArray(bs))
    ensures Proper(FormOf(BoolArray(bs))) && Meaning(FormOf(BoolArray(bs))) == Normal(BoolArray(bs))
  {
    hide FlagBytes, EncodeFlags;
  }

  lemma {:induction false} VarArrayConforms(k: VarKind, ss: seq<bytes>)
    requires Encodable(VarArray(k, ss)) && Faithful(VarArray(k, ss)) && Sizeable(VarArray(k, ss))
    ensures Proper(FormOf(VarArray(k, ss))) && Meaning(FormOf(VarArray(k, ss))) == Normal(VarArray(k, ss))
  {
    hide SizedAll, EncodeVars, TotalLen, ValidUtf8, Compound, Four, ArrayHeader, WideVarArray;
    var w := if WideVarArray(ss) then 4 else 1;
    var code := if w == 4 then Code32(k) else Code8(k);
    var size := TotalLen(ss) + |ss| * w;
    VarArrayParts(k, ss, w, code);
    VarsSame(code, ss);
    VarsSize(ss, w);
    ArraySizes(|ss|, size, code);
    assert |SizedAll(code, ss)| == size;
  }

  lemma {:induction false} VarArrayParts(k: VarKind, ss: seq<bytes>, w: nat, code: byte)
    requires Encodable(VarArray(k, ss)) && FaithfulVars(ss)
    requires w == (if WideVarArray(ss) then 4 else 1) && code == if w == 4 then Code32(k) else Code8(k)
    ensures (IsBinary(code) || IsString(code) || IsSymbol(code)) && VarType(code) == k
    ensures (forall t | 0 <= t < |ss| :: IsVar(code, ss[t])) && EnoughBytes(code, ss)
    ensures code / 16 == (if w == 4 then 0xb else 0xa)
    ensures forall t | 0 <= t < |ss| :: |ss[t]| < if code / 16 == 0xa then 0x100 else MOD32
  {
    hide TotalLen, ValidUtf8;
  }

  lemma {:induction false} ArraySizes(count: nat, size: nat, elem: byte)
    requires count <= size
    ensures |ArrayHeader(count, size, elem)| == if size + 2 <= 255 then 4 else 10
  {
  }

  // ---- composites --------------------------------------------------------------------

  lemma {:induction false} FitsForm(k: Kind, v: Value)
    requires v != Null && Encodable(v) && Fits(k, v)
    ensures FitsF(k, FormOf(v))
  {
    hide Forms, PairForms, Datas, SetCount, TotalLen, NumForm, FixedType;
    if v.Num? {
      NumFormIs(v.k, v.n);
      NumIsNum(v.k, v.n);
      NumCodes(v.k, v.n);
    }
    if k == KStringMap { KeysFit(v.entries); }
  }

  lemma {:induction false} KeysFit(es: seq<Entry>)
    requires forall e | e in es :: Encodable(e.key) && Encodable(e.val) && e.key.Var? && e.key.vk != Binary
    ensures StringKeys(PairForms(es, 0))
  {
    hide Encodable;
    var ps := PairForms(es, 0);
    forall j | 0 <= j < |ps| ensures ps[j].key.VarF? && (IsString(ps[j].key.vcode) || IsSymbol(ps[j].key.vcode)) {
      assert ps[j] == PairForm(es[j]);
    }
  }

  lemma {:induction false} NumCodes(k: NumKind, n: int)
    requires InRange(k, n)
    ensures k == Ushort ==> NumForm(k, n).code == 0x60
    ensures k == Ubyte ==> NumForm(k, n).code == 0x50
    ensures k == Timestamp ==> NumForm(k, n).code == 0x83
  {
  }

  lemma {:induction false} FieldMeans(k: Kind, v: Value)
    requires v != Null && Encodable(v) && Fits(k, v) && Meaning(FormOf(v)) == Normal(v)
    ensures FieldMeaning(k, FormOf(v)) == Normal(v)
  {
    hide Forms, PairForms, Datas, SetCount, TotalLen, NumForm, FixedType, Meaning;
    if k == KMillis {
      NumFormIs(v.k, v.n);
    }
  }

  lemma {:induction false} FieldConforms(code: byte, fs: seq<Value>, j: nat)
    requires Encodable(Composite(code, fs)) && FaithfulFields(fs, Schema(code)) && Sizeable(Composite(code, fs))
    requires j < SetCount(fs) && fs[j] != Null
    ensures var t := FormOf(fs[j]);
            && Proper(t) && FitsF(Schema(code)[j].kind, t) && FieldMeaning(Schema(code)[j].kind, t) == Normal(fs[j])
    decreases Composite(code, fs), 0, 0, 0
  {
    hide Encode, Proper, Meaning, Normal, FormOf, Fits, FitsF, FieldMeaning, SetCount, Schema, EncodeRange, Bytes;
    CompositeBytes(code, fs);
    RangePart(fs, 0, SetCount(fs), j);
    EncodeConforms(fs[j]);
    FitsForm(Schema(code)[j].kind, fs[j]);
    FieldMeans(Schema(code)[j].kind, fs[j]);
  }

  /** Forms that stand for a composite's fields, one by one. */
  ghost predicate FieldForms(fs: seq<Value>, ts: seq<Form>, table: seq<Field>) {
    && |fs| == |table| && |ts| <= |fs| && (forall j | |ts| <= j < |fs| :: fs[j] == Null)
    && forall j | 0 <= j < |ts| ::
         && (ts[j] == NullF <==> fs[j] == Null)
         && (ts[j] != NullF ==> FieldMeaning(table[j].kind, ts[j]) == Normal(fs[j]))
  }

  lemma {:induction false} FilledAre(fs: seq<Value>, ts: seq<Form>, table: seq<Field>, k: nat)
    requires k <= |table| && FieldForms(fs, ts, table)
    requires forall j | 0 <= j < |fs| :: fs[j] == Null ==> table[j].onNull.Default?
    ensures Filled(ts, table, k) == NormalFields(fs, table, k)
    decreases |table| - k
  {
    hide FieldMeaning, Normal;
    if k < |table| { FilledAre(fs, ts, table, k + 1); }
  }

  lemma {:induction false} CompositeConforms(code: byte, fs: seq<Value>)
    requires Encodable(Composite(code, fs)) && Faithful(Composite(code, fs)) && Sizeable(Composite(code, fs))
    ensures Proper(FormOf(Composite(code, fs))) && Meaning(FormOf(Composite(code, fs))) == Normal(Composite(code, fs))
    decreases Composite(code, fs), 0, 1
  {
    hide Encode, FormOf, FitsF, FieldMeaning, Fits, SetCount, Schema, Standard, EncodeRange, Forms, ItemBytes, Filled,
      NormalFields, FieldListFits, Typed, Complete, Encodable;
    FieldsConform(code, fs);
    CompositeForm(code, fs);
    TablesAgree(code);
    TypedSize(Forms(fs, 0, SetCount(fs)), Standard(code)) by { FieldsEncodable(code, fs); }
  }

  lemma {:induction false} FieldsEncodable(code: byte, fs: seq<Value>)
    requires Encodable(Composite(code, fs))
    ensures forall x | x in fs :: Encodable(x)
  {
  }

  lemma {:induction false} CompositeForm(code: byte, fs: seq<Value>)
    requires Encodable(Composite(code, fs))
    ensures (forall x | x in fs :: Encodable(x)) && SetCount(fs) <= |fs|
    ensures FormOf(Composite(code, fs))
         == CompositeF(false, code, if SetCount(fs) == 0 then Empty else Wide, Forms(fs, 0, SetCount(fs)))
  {
    hide SetCount, Forms;
  }

  /** The fields of any composite, performatives and sections included. */
  lemma {:induction false} FieldsConform(code: byte, fs: seq<Value>)
    requires Encodable(Composite(code, fs)) && FaithfulFields(fs, Schema(code)) && Sizeable(Composite(code, fs))
    ensures forall x | x in fs :: Encodable(x)
    ensures var ts := Forms(fs, 0, SetCount(fs));
            && Typed(ts, Standard(code)) && Complete(ts, Standard(code)) && (forall x | x in ts :: Proper(x))
            && FieldListFits(if SetCount(fs) == 0 then Empty else Wide, |ts|, ItemBytes(ts, 0))
            && Filled(ts, Standard(code), 0) == NormalFields(fs, Schema(code), 0)
    decreases Composite(code, fs), 0, 0, 1
  {
    hide Encode, FitsF, FieldMeaning, Fits, SetCount, Schema, Standard, EncodeRange, Forms, ItemBytes, Filled, NormalFields,
      Encodable, Normal, Faithful;
    FieldsEncodable(code, fs);
    TablesAgree(code);
    var n := SetCount(fs);
    var ts := Forms(fs, 0, n);
    forall j | 0 <= j < n && fs[j] != Null
      ensures Proper(ts[j]) && FitsF(Schema(code)[j].kind, ts[j]) && FieldMeaning(Schema(code)[j].kind, ts[j]) == Normal(fs[j])
    {
      FieldConforms(code, fs, j);
    }
    FormsBytes(fs, 0, n);
    CompositeBytes(code, fs);
    FilledAre(fs, ts, Schema(code), 0);
  }

  // ---- size --------------------------------------------------------------------------

  /** No form of a number, string, symbol or binary is shorter than the one Marshal writes. */
  lemma {:induction false} Shortest(v: Value, t: Form)
    requires (v.Num? || v.Var?) && Encodable(v) && Proper(t) && Meaning(t) == Normal(v)
    ensures |Encode(v)| <= |Bytes(t)|
  {
    match v
    case Num(k, n) => hide Encode, Encodable, Normal; SimpleParts(v); NumShortest(k, n, t);
    case Var(k, s) => hide Encode, Encodable, Normal; SimpleParts(v); VarShortest(k, s, t);
  }

  lemma {:induction false} SimpleParts(v: Value)
    requires (v.Num? || v.Var?) && Encodable(v)
    ensures v.Num? ==> InRange(v.k, v.n) && Encode(v) == EncodeNum(v.k, v.n) && Normal(v) == v
    ensures v.Var? ==> |v.s| < MOD32 && Encode(v) == EncodeVar(v.vk, v.s)
                       && Normal(v) == Var(if v.vk == Symbol then Str else v.vk, v.s)
  {
  }

  lemma {:induction false} NumShortest(k: NumKind, n: int, t: Form)
    requires InRange(k, n) && Proper(t) && Meaning(t) == Num(k, n)
    ensures |EncodeNum(k, n)| <= |Bytes(t)|
  {
    hide Pow256, FromBe, Be, InRange;
    assert t.NumF? && FixedType(t.code) == Some(k) && NumberIn(k, t.data) == n;
    Pow256Values();
    if |t.data| == 0 { assert FromBe(t.data) < Pow256(0); }
    if |t.data| == 1 { OneByteNumber(k, t.data); }
  }

  lemma {:induction false} OneByteNumber(k: NumKind, data: bytes)
    requires |data| == 1
    ensures NumberIn(k, data) == if Signed(k) && data[0] >= 0x80 then data[0] - 256 else data[0] as int
  {
    Pow256Values();
  }

  lemma {:induction false} VarShortest(k: VarKind, s: bytes, t: Form)
    requires |s| < MOD32 && Proper(t) && Meaning(t) == Var(if k == Symbol then Str else k, s)
    ensures |EncodeVar(k, s)| <= |Bytes(t)|
  {
    hide Be, Pow256;
    assert t.VarF? && t.s == s;
  }

  /** An array's sizes take one byte whenever they fit. */
  lemma {:induction false} ArrayHeaderShort(v: Value)
    requires Encodable(v) && (v.NumArray? || v.VarArray? || v.BoolArray?)
    ensures |Encode(v)| > 0 && (Encode(v)[0] == 0xe0 <==> |Encode(v)| < 258)
  {
    hide EncodeNums, EncodeVars, EncodeFlags, TotalLen, Be, Pow256;
    match v
    case VarArray(k, ss) =>
      var w := if WideVarArray(ss) then 4 else 1;
      assert Encode(v) == EncodeVarArray(k, ss);
      VarsSame(if w == 4 then Code32(k) else Code8(k), ss);
      VarsSize(ss, w);
    case _ =>
  }

  /** An array of the kinds that have one-byte constructors uses them exactly when no element is above their range. */
  lemma {:induction false} ArrayNarrowed(k: NumKind, ns: seq<int>)
    requires Encodable(NumArray(k, ns)) && (k == Uint || k == Ulong || k == Int || k == Long)
    ensures var e := Encode(NumArray(k, ns));
            var h := if e[0] == 0xe0 then 3 else 9;
            var fits := forall n | n in ns :: n <= (if k == Uint || k == Ulong then 255 else 127);
            h < |e| && e[h] == match k
                               case Uint => if fits then 0x52 else 0x70
                               case Ulong => if fits then 0x53 else 0x80
                               case Int => if fits then 0x54 else 0x71
                               case _ => if fits then 0x55 else 0x81
  {
    hide EncodeNums, Be, Pow256;
    assert Encode(NumArray(k, ns)) == EncodeNumArray(k, ns);
  }
}
