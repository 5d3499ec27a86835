/** The decoder against the standard: every form a value may take is read as the value it stands for. */
module Conformance {
  import opened Words
  import opened Values
  import opened Decoder
  import opened Buffers
  import opened RoundTrip
  import opened Spelling

  // ---- numbers -----------------------------------------------------------------------

  lemma {:induction false} FromBeFirst(s: bytes)
    requires s != []
    ensures FromBe(s) == s[0] * Pow256(|s| - 1) + FromBe(s[1..])
  {
    if |s| == 1 {
      assert s[..0] == [] == s[1..];
    } else {
      var t, last := s[..|s| - 1], s[|s| - 1];
      FromBeFirst(t);
      assert s[1..][..|s| - 2] == t[1..];
      var p := Pow256(|s| - 2);
      Regroup(s[0], p, FromBe(t[1..]), last);
    }
  }

  lemma {:induction false} Regroup(a: int, p: int, r: int, last: int)
    ensures (a * p + r) * 256 + last == a * (256 * p) + (r * 256 + last)
  {
  }

  lemma {:induction false} Upper(a: byte, p: int, r: int)
    requires 0 <= r < p
    ensures 2 * (a * p + r) >= 256 * p <==> a >= 0x80
  {
    if a >= 0x80 {
      assert (a - 0x80) * p >= 0;
    } else {
      assert (0x7f - a) * p >= 0;
    }
  }

  /** The sign bit says whether the number is in the upper half. */
  lemma {:induction false} SignBit(s: bytes)
    requires s != []
    ensures 2 * FromBe(s) >= Pow256(|s|) <==> s[0] >= 0x80
  {
    FromBeFirst(s);
    hide FromBe;
    Upper(s[0], Pow256(|s| - 1), FromBe(s[1..]));
  }

  lemma {:induction false} RawIs(k: NumKind, data: bytes)
    ensures FromRaw(k, |data|, FromBe(data)) == NumberIn(k, data)
  {
    if data != [] { SignBit(data); }
    hide FromBe, Pow256;
  }

  lemma {:induction false} CodesAgree(code: byte, w: nat)
    requires FixedType(code).Some? && FixedWidth(code) == Some(w)
    ensures NumCode(code) == Some((FixedType(code).value, w))
  {
  }

  lemma {:induction false} NumSpelled(code: byte, data: bytes, bs: bytes, i: nat)
    requires IsFixed(code, data) && At(bs, i, [code] + data)
    ensures i < |bs| && bs[i] == code
    ensures ReadNum(bs, i) == Ok(Num(FixedType(code).value, NumberIn(FixedType(code).value, data)), i + 1 + |data|)
  {
    hide ReadNum, NumberIn, FromRaw, NumCode, FixedType, FixedWidth;
    CodesAgree(code, |data|);
    AtHead(bs, i, [code] + data);
    ReadNumAt(bs, i, code, data);
    RawIs(FixedType(code).value, data);
  }

  lemma {:induction false} FourIs(n: uint32)
    ensures FromBe(Four(n)) == n
  {
    Be4(n);
  }

  lemma {:induction false} OneIs(n: byte)
    ensures FromBe([n]) == n
  {
    assert [n][..0] == [];
  }

  /** Bytes of a length. */
  function SizeWidth(code: byte): (w: nat) { if code / 16 == 0xa then 1 else 4 }

  lemma {:induction false} SizedSpelled(code: byte, s: bytes, bs: bytes, i: nat)
    requires IsVar(code, s) && At(bs, i, Sized(code, s))
    ensures ReadSized(bs, i, SizeWidth(code)) == Ok(s, i + |Sized(code, s)|)
  {
    hide FromBe, ReadSized;
    if code / 16 == 0xa {
      OneIs(|s|);
      SizedAt(bs, i, 1, [|s|], s);
    } else {
      FourIs(|s|);
      SizedAt(bs, i, 4, Four(|s|), s);
    }
  }

  lemma {:induction false} VarSpelled(code: byte, s: bytes, bs: bytes, i: nat)
    requires IsVar(code, s) && At(bs, i, [code] + Sized(code, s))
    ensures i < |bs| && bs[i] == code && VarCode(code).Some?
    ensures ReadVar(bs, i) == Ok(Var(if IsBinary(code) then Binary else Str, s), i + 1 + |Sized(code, s)|)
  {
    hide ReadSized, Sized;
    AtSplit(bs, i, [code], Sized(code, s));
    AtHead(bs, i, [code]);
    SizedSpelled(code, s, bs, i + 1);
  }

  // ---- compounds ---------------------------------------------------------------------

  function HeadSize(wide: bool): (n: nat) { if wide then 9 else 3 }

  lemma {:induction false} CompoundSpelled(short: byte, long: byte, wide: bool, count: nat, body: bytes, bs: bytes, i: nat)
    requires short != long && CompoundFits(wide, count, body) && At(bs, i, Compound(short, long, wide, count, body))
    ensures i < |bs| && bs[i] == (if wide then long else short)
    ensures ReadHeader(bs, i, short, long) == Ok(count, i + HeadSize(wide)) && At(bs, i + HeadSize(wide), body)
    ensures |Compound(short, long, wide, count, body)| == HeadSize(wide) + |body|
  {
    hide FromBe;
    if wide {
      var p, q := Four(4 + |body|), Four(count);
      FourIs(4 + |body|);
      FourIs(count);
      hide Four;
      assert Compound(short, long, wide, count, body) == [long] + (p + (q + body));
      AtSplit(bs, i, [long], p + (q + body));
      AtHead(bs, i, [long]);
      AtSplit(bs, i + 1, p, q + body);
      AtSplit(bs, i + 5, q, body);
      hide Compound;
      assert bs[i + 1..i + 5] == p && bs[i + 5..i + 9] == q;
    } else {
      var h := [short, 1 + |body|, count];
      AtSplit(bs, i, h, body);
      var q := bs[i..i + 3];
      assert bs[i] == q[0] && bs[i + 1] == q[1] && bs[i + 2] == q[2];
    }
  }

  lemma {:induction false} ArraySpelled(wide: bool, count: nat, code: byte, data: bytes, bs: bytes, i: nat)
    requires ArrayFits(wide, count, code, data) && At(bs, i, Array(wide, count, code, data))
    ensures var j := i + HeadSize(wide);
            && i < |bs| && (bs[i] == 0xe0 || bs[i] == 0xf0) && ReadHeader(bs, i, 0xe0, 0xf0) == Ok(count, j)
            && j < |bs| && bs[j] == code && At(bs, j + 1, data)
            && |Array(wide, count, code, data)| == HeadSize(wide) + 1 + |data|
  {
    hide ReadHeader, Compound;
    var j := i + HeadSize(wide);
    CompoundSpelled(0xe0, 0xf0, wide, count, [code] + data, bs, i);
    AtSplit(bs, j, [code], data);
    AtHead(bs, j, [code]);
  }

  lemma {:induction false} JoinedSize(datas: seq<bytes>, w: nat)
    requires forall k | 0 <= k < |datas| :: |datas[k]| == w
    ensures |Joined(datas)| == |datas| * w
  {
    if datas != [] {
      JoinedSize(datas[1..], w);
      assert |datas| * w == w + |datas[1..]| * w;
    }
  }

  lemma {:induction false} NumbersSpelled(k: NumKind, w: nat, datas: seq<bytes>, bs: bytes, i: nat)
    requires (forall t | 0 <= t < |datas| :: |datas[t]| == w) && At(bs, i, Joined(datas))
    ensures i + |datas| * w <= |bs| && ReadNums(bs, i, |datas|, k, w) == Numbers(k, datas)
  {
    hide FromBe, FromRaw, NumberIn;
    JoinedSize(datas, w);
    if datas != [] {
      AtSplit(bs, i, datas[0], Joined(datas[1..]));
      assert bs[i..i + w] == datas[0];
      RawIs(k, datas[0]);
      NumbersSpelled(k, w, datas[1..], bs, i + w);
    }
  }

  lemma {:induction false} NumArraySpelled(wide: bool, code: byte, datas: seq<bytes>, bs: bytes, i: nat)
    requires Proper(NumArrayF(wide, code, datas)) && At(bs, i, Bytes(NumArrayF(wide, code, datas)))
    ensures i < |bs| && (bs[i] == 0xe0 || bs[i] == 0xf0)
    ensures ReadArray(bs, i) == Ok(Meaning(NumArrayF(wide, code, datas)), i + |Bytes(NumArrayF(wide, code, datas))|)
  {
    hide ReadHeader, ReadArray, FixedType, FixedWidth, NumCode, Array, ArrayFits, Joined, Numbers, ReadNums;
    var k, j := FixedType(code).value, i + HeadSize(wide);
    WidthThere(code);
    var w := FixedWidth(code).value;
    ArraySpelled(wide, |datas|, code, Joined(datas), bs, i);
    CodesAgree(code, w);
    JoinedSize(datas, w);
    NumbersSpelled(k, w, datas, bs, j + 1);
    DispatchNums(bs, i, |datas|, j, k, w);
  }

  lemma {:induction false} WidthThere(code: byte)
    requires FixedType(code).Some?
    ensures FixedWidth(code).Some?
  {
  }

  lemma {:induction false} FlagsSpelled(flags: seq<bool>, bs: bytes, i: nat)
    requires At(bs, i, FlagBytes(flags))
    ensures ReadFlags(bs, i, |flags|) == flags
  {
    if flags != [] {
      var c: bytes := [if flags[0] then 0x01 else 0x00];
      AtSplit(bs, i, c, FlagBytes(flags[1..]));
      AtHead(bs, i, c);
      FlagsSpelled(flags[1..], bs, i + 1);
      assert flags == [flags[0]] + flags[1..];
    }
  }

  lemma {:induction false} BoolArraySpelled(wide: bool, flags: seq<bool>, bs: bytes, i: nat)
    requires Proper(BoolArrayF(wide, flags)) && At(bs, i, Bytes(BoolArrayF(wide, flags)))
    ensures i < |bs| && (bs[i] == 0xe0 || bs[i] == 0xf0)
    ensures ReadArray(bs, i) == Ok(BoolArray(flags), i + |Bytes(BoolArrayF(wide, flags))|)
  {
    hide ReadHeader, ReadArray, Array, ArrayFits, FlagBytes, ReadFlags;
    var j := i + HeadSize(wide);
    ArraySpelled(wide, |flags|, 0x56, FlagBytes(flags), bs, i);
    FlagsSpelled(flags, bs, j + 1);
    DispatchFlags(bs, i, |flags|, j);
  }

  lemma {:induction false} SameArraySpelled(wide: bool, b: bool, count: uint32, bs: bytes, i: nat)
    requires Proper(SameArrayF(wide, b, count)) && At(bs, i, Bytes(SameArrayF(wide, b, count)))
    ensures i < |bs| && (bs[i] == 0xe0 || bs[i] == 0xf0)
    ensures ReadArray(bs, i) == Ok(BoolArray(seq(count, _ => b)), i + |Bytes(SameArrayF(wide, b, count))|)
  {
    hide ReadHeader, Array, ArrayFits;
    ArraySpelled(wide, count, if b then 0x41 else 0x42, [], bs, i);
  }

  lemma {:induction false} SizedAllSize(code: byte, ss: seq<bytes>)
    ensures |SizedAll(code, ss)| == TotalLen(ss) + SizeWidth(code) * |ss|
  {
    if ss != [] { SizedAllSize(code, ss[1..]); }
  }

  lemma {:induction false} SizedAllSpelled(code: byte, ss: seq<bytes>, bs: bytes, i: nat)
    requires (forall k | 0 <= k < |ss| :: IsVar(code, ss[k])) && At(bs, i, SizedAll(code, ss))
    ensures ReadSizedItems(bs, i, |ss|, SizeWidth(code)) == Ok(ss, i + |SizedAll(code, ss)|)
  {
    hide ReadSized, ReadSizedItems, Sized, IsVar, SizeWidth;
    if ss == [] {
      SizedItemsNone(bs, i, SizeWidth(code));
    } else {
      var j := i + |Sized(code, ss[0])|;
      AtSplit(bs, i, Sized(code, ss[0]), SizedAll(code, ss[1..]));
      SizedSpelled(code, ss[0], bs, i);
      SizedAllSpelled(code, ss[1..], bs, j);
      assert ss == [ss[0]] + ss[1..];
      SizedItemsStep(bs, i, |ss|, SizeWidth(code), ss[0], j, ss[1..], i + |SizedAll(code, ss)|);
    }
  }

  lemma {:induction false} VarCodesAgree(code: byte)
    requires IsBinary(code) || IsString(code) || IsSymbol(code)
    ensures VarCode(code) == Some((VarType(code), SizeWidth(code)))
  {
  }

  lemma {:induction false} VarArrayDataSpelled(code: byte, ss: seq<bytes>, bs: bytes, j: nat)
    requires IsBinary(code) || IsString(code) || IsSymbol(code)
    requires (forall k | 0 <= k < |ss| :: IsVar(code, ss[k])) && EnoughBytes(code, ss)
    requires j < |bs| && At(bs, j + 1, SizedAll(code, ss))
    ensures ReadVarArray(bs, j, |ss|, VarType(code), SizeWidth(code))
         == Ok(VarArray(VarType(code), ss), j + 1 + |SizedAll(code, ss)|)
  {
    hide IsVar, SizedAll, ReadSizedItems, TotalLen;
    SizedAllSpelled(code, ss, bs, j + 1);
    SizedAllSize(code, ss);
  }

  lemma {:induction false} VarArraySpelled(wide: bool, code: byte, ss: seq<bytes>, bs: bytes, i: nat)
    requires Proper(VarArrayF(wide, code, ss)) && At(bs, i, Bytes(VarArrayF(wide, code, ss)))
    ensures i < |bs| && (bs[i] == 0xe0 || bs[i] == 0xf0)
    ensures ReadArray(bs, i) == Ok(VarArray(VarType(code), ss), i + |Bytes(VarArrayF(wide, code, ss))|)
    ensures IsSymbol(code) ==> ReadField(bs, i, KSymbols) == ReadArray(bs, i)
  {
    hide ReadHeader, ReadArray, Array, ArrayFits, SizedAll, ReadVarArray, VarType, VarCode, IsVar, EnoughBytes, ReadField;
    var j := i + HeadSize(wide);
    ArraySpelled(wide, |ss|, code, SizedAll(code, ss), bs, i);
    VarCodesAgree(code);
    VarArrayDataSpelled(code, ss, bs, j);
    DispatchVars(bs, i, |ss|, j, VarType(code), SizeWidth(code));
    if IsSymbol(code) {
      SymbolType(code);
      SymbolsAt(ss, bs, i, i + |Bytes(VarArrayF(wide, code, ss))|);
    }
  }

  lemma {:induction false} SymbolType(code: byte)
    requires IsSymbol(code)
    ensures VarType(code) == Symbol
  {
  }

  // ---- values ------------------------------------------------------------------------

  lemma {:induction false} PlainSpelled(t: Form, bs: bytes, i: nat)
    requires (t.NullF? || t.TrueF? || t.FalseF? || t.BoolF?) && At(bs, i, Bytes(t))
    ensures i < |bs| && ReadAny(bs, i) == Ok(Meaning(t), i + |Bytes(t)|)
    ensures (bs[i] == 0x40) == t.NullF? && (!t.NullF? ==> ReadBool(bs, i) == ReadAny(bs, i))
  {
    AtHead(bs, i, Bytes(t));
    if t.BoolF? { assert bs[i..i + 2][1] == bs[i + 1]; }
  }

  /** Every form of every value is read as the value it stands for, and no byte behind it is touched. */
  lemma {:induction false} AnySpelled(t: Form, bs: bytes, i: nat)
    requires Proper(t) && At(bs, i, Bytes(t))
    ensures ReadAny(bs, i) == Ok(Meaning(t), i + |Bytes(t)|)
    decreases t, 0, 3
  {
    hide ReadAny, ReadItems, ReadList, ReadMap, ReadEntries, ReadDescribed, ReadComposite,
      UnmarshalComposite, ReadFields, ReadField, ReadArray, ReadNum, ReadVar;
    hide Compound, Array, CompoundFits, ArrayFits, FieldList, FieldListFits, ItemBytes, PairBytes, Sized, Joined, FlagBytes,
      SizedAll, Meanings, Entries, Numbers, Filled, NumberIn, FixedType, FixedWidth, Standard, Typed, Complete;
    match t
    case NumF(code, data) =>
      NumSpelled(code, data, bs, i);
      CodesAgree(code, |data|);
      AnyNum(bs, i);
    case VarF(code, s) => VarSpelled(code, s, bs, i); AnyVar(bs, i);
    case List0F =>
      AtHead(bs, i, [0x45]);
      EmptyListAt(bs, i);
      AnyList(bs, i);
    case ListF(wide, items) => ListSpelled(wide, items, bs, i); AnyList(bs, i);
    case MapF(wide, pairs) => MapSpelled(wide, pairs, AnyKey, bs, i); AnyMap(bs, i);
    case NumArrayF(wide, code, datas) => NumArraySpelled(wide, code, datas, bs, i); AnyArray(bs, i);
    case BoolArrayF(wide, flags) => BoolArraySpelled(wide, flags, bs, i); AnyArray(bs, i);
    case SameArrayF(wide, b, count) => SameArraySpelled(wide, b, count, bs, i); AnyArray(bs, i);
    case VarArrayF(wide, code, ss) => VarArraySpelled(wide, code, ss, bs, i); AnyArray(bs, i);
    case DescribedF(d, x) => DescribedSpelled(d, x, bs, i);
    case CompositeF(wideCode, code, list, fields) =>
      TypedSize(fields, Standard(code));
      CompositeSpelled(wideCode, code, list, fields, bs, i);
      NestedSpelled(wideCode, code, list, fields, bs, i);
    case _ => PlainSpelled(t, bs, i);
  }

  lemma {:induction false} ItemsSpelled(items: seq<Form>, k: nat, bs: bytes, i: nat)
    requires k <= |items| && (forall x | x in items :: Proper(x)) && At(bs, i, ItemBytes(items, k))
    ensures ReadItems(bs, i, |items| - k) == Ok(Meanings(items, k), i + |ItemBytes(items, k)|)
    decreases items, |items| - k, 1
  {
    hide ReadAny, ReadItems, Bytes, Proper, Meaning;
    if k == |items| {
      ItemsDone(bs, i);
    } else {
      var j := i + |Bytes(items[k])|;
      AtSplit(bs, i, Bytes(items[k]), ItemBytes(items, k + 1));
      AnySpelled(items[k], bs, i);
      ItemsSpelled(items, k + 1, bs, j);
      ItemsStep(bs, i, |items| - k, Fine, Meaning(items[k]), j, Fine, Meanings(items, k + 1),
                i + |ItemBytes(items, k)|);
    }
  }

  lemma {:induction false} ListHolds(bs: bytes, i: nat, n: nat, j: nat, vs: seq<Value>, e: nat)
    requires ReadHeader(bs, i, 0xc0, 0xd0) == Ok(n, j) && i < |bs| && bs[i] != 0x45 && n <= |bs| - j
    requires ReadItems(bs, j, n) == Ok(vs, e)
    ensures ReadList(bs, i) == Ok(List(vs), e)
  {
    hide ReadItems, ReadHeader;
  }

  lemma {:induction false} ListSpelled(wide: bool, items: seq<Form>, bs: bytes, i: nat)
    requires Proper(ListF(wide, items)) && At(bs, i, Bytes(ListF(wide, items)))
    ensures i < |bs| && (bs[i] == 0xc0 || bs[i] == 0xd0)
    ensures ReadList(bs, i) == Ok(List(Meanings(items, 0)), i + |Bytes(ListF(wide, items))|)
    decreases ListF(wide, items), 0, 2
  {
    hide ReadItems, ReadList, ReadHeader, Compound, CompoundFits, ItemBytes, Meanings;
    var body, j := ItemBytes(items, 0), i + HeadSize(wide);
    CompoundSpelled(0xc0, 0xd0, wide, |items|, body, bs, i);
    ItemsSpelled(items, 0, bs, j);
    ListHolds(bs, i, |items|, j, Meanings(items, 0), j + |body|);
  }

  lemma {:induction false} KeyIs(t: Form)
    requires Proper(t)
    ensures Hashable(Meaning(t)) == KeyF(t)
    decreases t
  {
    hide Filled, Entries, Meanings, Numbers, Standard, Typed, Complete, Compound, Array, ItemBytes, PairBytes;
    match t
    case DescribedF(d, x) => KeyIs(d); KeyIs(x);
    case CompositeF(_, code, _, fields) => assert Typed(fields, Standard(code)); TypedSize(fields, Standard(code));
    case _ =>
  }

  lemma {:induction false} TypedSize(fields: seq<Form>, table: seq<Field>)
    requires Typed(fields, table)
    ensures |fields| <= |table|
  {
  }

  predicate KeysFor(mode: KeyMode, pairs: seq<PairF>) {
    mode.StringKey? ==> StringKeys(pairs)
  }

  lemma {:induction false} StringSpelled(t: Form, bs: bytes, i: nat)
    requires Proper(t) && t.VarF? && (IsString(t.vcode) || IsSymbol(t.vcode)) && At(bs, i, Bytes(t))
    ensures ReadString(bs, i) == Ok(Meaning(t), i + |Bytes(t)|)
  {
    hide ReadVar, Sized;
    VarSpelled(t.vcode, t.s, bs, i);
  }

  lemma {:induction false} PairSpelled(p: PairF, mode: KeyMode, bs: bytes, i: nat)
    requires Proper(p.key) && Proper(p.val) && At(bs, i, OnePair(p))
    requires mode.StringKey? ==> p.key.VarF? && (IsString(p.key.vcode) || IsSymbol(p.key.vcode))
    ensures var j := i + |Bytes(p.key)|;
            && (if mode.StringKey? then ReadString(bs, i) else ReadAny(bs, i)) == Ok(OneEntry(p).key, j)
            && ReadAny(bs, j) == Ok(OneEntry(p).val, i + |OnePair(p)|)
    decreases p, 0, 4
  {
    hide ReadAny, ReadString, Bytes, Proper, Meaning;
    AtSplit(bs, i, Bytes(p.key), Bytes(p.val));
    AnySpelled(p.val, bs, i + |Bytes(p.key)|);
    if mode.StringKey? { StringSpelled(p.key, bs, i); } else { AnySpelled(p.key, bs, i); }
  }

  lemma {:induction false} PairsSpelled(pairs: seq<PairF>, k: nat, mode: KeyMode, acc: seq<Entry>, bs: bytes, i: nat)
    requires k <= |pairs| && KeysFor(mode, pairs) && At(bs, i, PairBytes(pairs, k))
    requires forall p | p in pairs :: Proper(p.key) && Proper(p.val) && KeyF(p.key)
    ensures ReadEntries(bs, i, 2 * (|pairs| - k), mode, acc) == Ok(Entries(pairs, k, acc), i + |PairBytes(pairs, k)|)
    decreases pairs, |pairs| - k, 5
  {
    hide ReadAny, ReadEntries, ReadString, OnePair, Proper, Meaning, Hashable, Insert, KeyF;
    if k == |pairs| {
      ItemsDone(bs, i);
    } else {
      var p := pairs[k];
      AtSplit(bs, i, OnePair(p), PairBytes(pairs, k + 1));
      PairSpelled(p, mode, bs, i);
      KeyIs(p.key);
      var e, m := OneEntry(p), i + |OnePair(p)|;
      EntriesStep(bs, i, 2 * (|pairs| - k), mode, acc, Fine, e.key, i + |Bytes(p.key)|, Fine, e.val, m);
      PairsSpelled(pairs, k + 1, mode, Insert(acc, e.key, e.val), bs, m);
    }
  }

  lemma {:induction false} MapHolds(bs: bytes, i: nat, mode: KeyMode, n: nat, j: nat, es: seq<Entry>, e: nat)
    requires ReadHeader(bs, i, 0xc1, 0xd1) == Ok(n, j) && n <= |bs| - j
    requires ReadEntries(bs, j, n, mode, []) == Ok(es, e)
    ensures ReadMap(bs, i, mode) == Ok(Map(es), e)
  {
    hide ReadEntries, ReadHeader;
  }

  lemma {:induction false} MapSpelled(wide: bool, pairs: seq<PairF>, mode: KeyMode, bs: bytes, i: nat)
    requires Proper(MapF(wide, pairs)) && KeysFor(mode, pairs) && At(bs, i, Bytes(MapF(wide, pairs)))
    ensures i < |bs| && (bs[i] == 0xc1 || bs[i] == 0xd1)
    ensures ReadMap(bs, i, mode) == Ok(Map(Entries(pairs, 0, [])), i + |Bytes(MapF(wide, pairs))|)
    decreases MapF(wide, pairs), 0, 2
  {
    hide ReadEntries, ReadMap, ReadHeader, Compound, CompoundFits, PairBytes, Entries, KeysFor;
    var body, j := PairBytes(pairs, 0), i + HeadSize(wide);
    CompoundSpelled(0xc1, 0xd1, wide, 2 * |pairs|, body, bs, i);
    PairsSpelled(pairs, 0, mode, [], bs, j);
    MapHolds(bs, i, mode, 2 * |pairs|, j, Entries(pairs, 0, []), j + |body|);
  }

  // ---- described values --------------------------------------------------------------

  /** The descriptor the reader looks at first. */
  lemma {:induction false} PeekSpelled(d: Form, bs: bytes, i: nat)
    requires Proper(d) && !NamesComposite(d) && At(bs, i, [0x00] + Bytes(d))
    ensures i < |bs| && bs[i] == 0x00 && At(bs, i + 1, Bytes(d))
    ensures PeekDescriptor(bs, i).Some? && var c := PeekDescriptor(bs, i).value; !Refused(c) && !(c < 256 && Nested(c))
  {
    AtSplit(bs, i, [0x00], Bytes(d));
    AtHead(bs, i, [0x00]);
    AtHead(bs, i + 1, Bytes(d));
    HeadIs(d);
    if d.NumF? && (d.code == 0x53 || d.code == 0x80) {
      AtSplit(bs, i + 1, [d.code], d.data);
      if d.code == 0x53 {
        assert d.data == [d.data[0]];
        OneIs(d.data[0]);
        AtHead(bs, i + 2, d.data);
      }
    }
  }

  lemma {:induction false} HeadIs(t: Form)
    requires Proper(t)
    ensures Bytes(t)[0] == 0x53 || Bytes(t)[0] == 0x80 ==> t.NumF?
    ensures Bytes(t)[0] == 0x40 <==> t.NullF?
  {
    hide ItemBytes, PairBytes, Joined, FlagBytes, SizedAll, Meanings, Entries, Four;
  }

  lemma {:induction false} DescribedParts(d: Form, x: Form)
    ensures Proper(DescribedF(d, x)) == (Proper(d) && Proper(x) && !NamesComposite(d))
    ensures Bytes(DescribedF(d, x)) == [0x00] + Bytes(d) + Bytes(x)
    ensures Meaning(DescribedF(d, x)) == Described(Meaning(d), Meaning(x))
  {
  }

  lemma {:induction false} DescribedSpelled(d: Form, x: Form, bs: bytes, i: nat)
    requires Proper(DescribedF(d, x)) && At(bs, i, Bytes(DescribedF(d, x)))
    ensures ReadAny(bs, i) == Ok(Described(Meaning(d), Meaning(x)), i + |Bytes(DescribedF(d, x))|)
    decreases DescribedF(d, x), 0, 2
  {
    DescribedParts(d, x);
    hide ReadAny, Meaning, NamesComposite, Bytes, Proper;
    AtSplit(bs, i, [0x00] + Bytes(d), Bytes(x));
    PeekSpelled(d, bs, i);
    var j := i + 1 + |Bytes(d)|;
    AnySpelled(d, bs, i + 1);
    AnySpelled(x, bs, j);
    DescribedAt(bs, i, Fine, Meaning(d), j, Fine, Meaning(x), j + |Bytes(x)|);
  }

  // ---- composites --------------------------------------------------------------------

  /** The tables the code passes to its reader are the standard's. */
  lemma {:induction false} TablesAgree(code: byte)
    ensures Schema(code) == Standard(code)
  {
  }

  lemma {:induction false} DescriptorSpelled(wide: bool, code: byte, bs: bytes, i: nat)
    requires At(bs, i, Descriptor(wide, code))
    ensures var j := i + |Descriptor(wide, code)|;
            && i + 3 <= |bs| && bs[i] == 0x00 && ReadNum(bs, i + 1) == Ok(Num(Ulong, code), j)
            && PeekDescriptor(bs, i) == Some(code) && PeekMessageType(bs, i) == Ok(code, j)
  {
    if wide {
      var data := [0, 0, 0, 0, 0, 0, 0, code];
      EightIs(code);
      assert Descriptor(wide, code) == [0x00] + ([0x80] + data);
      AtSplit(bs, i, [0x00], [0x80] + data);
      AtHead(bs, i, [0x00]);
      NumSpelled(0x80, data, bs, i + 1);
      AtSplit(bs, i + 1, [0x80], data);
      assert bs[i + 2..i + 10] == data;
    } else {
      DescriptorAt(code, bs, i);
      assert bs[i..i + 3][1] == bs[i + 1] && bs[i..i + 3][2] == bs[i + 2];
    }
  }

  lemma {:induction false} EightIs(code: byte)
    ensures FromBe([0, 0, 0, 0, 0, 0, 0, code]) == code
  {
    assert [0, 0, 0, 0] + [0, 0, 0, code] == [0, 0, 0, 0, 0, 0, 0, code];
    FourIs(0);
    FourIs(code);
    FromBeJoin4([0, 0, 0, 0], [0, 0, 0, code]);
  }

  predicate CompleteFrom(fields: seq<Form>, table: seq<Field>, k: nat) {
    forall j | k <= j < |table| :: table[j].onNull.Required? ==> j < |fields| && fields[j] != NullF
  }

  function FieldsVerdict(fields: seq<Form>, table: seq<Field>, k: nat): (d: Verdict) {
    if CompleteFrom(fields, table, k) then Fine else Bad
  }

  ghost function Rest(fields: seq<Form>, k: nat): (s: bytes) {
    if k < |fields| then ItemBytes(fields, k) else []
  }

  /** The fields from position k on are read in their places, unless a mandatory one is missing. */
  ghost predicate FieldsHold(fields: seq<Form>, table: seq<Field>, k: nat, bs: bytes, i: nat)
    requires |fields| <= |table| && k <= |table|
  {
    ReadFields(bs, i, table, k, |fields|)
    == Told(FieldsVerdict(fields, table, k), Filled(fields, table, k), i + |Rest(fields, k)|)
  }

  lemma {:induction false} MissingField(bs: bytes, i: nat, table: seq<Field>, k: nat, n: nat)
    requires k < |table| && table[k].onNull.Required? && (k >= n || (i < |bs| && bs[i] == 0x40))
    ensures ReadFields(bs, i, table, k, n) == Err
  {
    hide ReadField;
  }

  lemma {:induction false} RestStep(fields: seq<Form>, k: nat)
    ensures Rest(fields, k) == if k < |fields| then Bytes(fields[k]) + Rest(fields, k + 1) else []
  {
    hide Bytes;
    if k < |fields| && k + 1 == |fields| { assert ItemBytes(fields, k + 1) == []; }
  }

  lemma {:induction false} AbsentField(fields: seq<Form>, table: seq<Field>, k: nat, bs: bytes, i: nat)
    requires |fields| <= |table| && k < |table| && At(bs, i, Rest(fields, k))
    requires k < |fields| ==> fields[k] == NullF
    requires FieldsHold(fields, table, k + 1, bs, if k < |fields| then i + 1 else i)
    ensures FieldsHold(fields, table, k, bs, i)
  {
    hide ReadFields, FieldMeaning, Rest, CompleteFrom;
    RestStep(fields, k);
    RestStep(fields, k + 1);
    CompleteStep(fields, table, k);
    if k < |fields| { AtHead(bs, i, Rest(fields, k)); }
    var j := if k < |fields| then i + 1 else i;
    if table[k].onNull.Required? {
      MissingField(bs, i, table, k, |fields|);
    } else {
      FieldsStepDefault(bs, i, table, k, |fields|, j, FieldsVerdict(fields, table, k + 1), Filled(fields, table, k + 1),
                        i + |Rest(fields, k)|);
    }
  }

  lemma {:induction false} CompleteStep(fields: seq<Form>, table: seq<Field>, k: nat)
    requires k < |table|
    ensures CompleteFrom(fields, table, k) ==
            (CompleteFrom(fields, table, k + 1) && (table[k].onNull.Required? ==> k < |fields| && fields[k] != NullF))
  {
  }

  lemma {:induction false} PresentField(fields: seq<Form>, table: seq<Field>, k: nat, bs: bytes, i: nat)
    requires |fields| <= |table| && k < |fields| && At(bs, i, Rest(fields, k)) && fields[k] != NullF && Proper(fields[k])
    requires ReadField(bs, i, table[k].kind) == Ok(FieldMeaning(table[k].kind, fields[k]), i + |Bytes(fields[k])|)
    requires FieldsHold(fields, table, k + 1, bs, i + |Bytes(fields[k])|)
    ensures FieldsHold(fields, table, k, bs, i)
  {
    hide ReadFields, ReadField, FieldMeaning, Rest, CompleteFrom, Bytes, Proper;
    RestStep(fields, k);
    CompleteStep(fields, table, k);
    HeadIs(fields[k]);
    AtHead(bs, i, Rest(fields, k));
    FieldsStepValue(bs, i, table, k, |fields|, Fine, FieldMeaning(table[k].kind, fields[k]), i + |Bytes(fields[k])|,
                    FieldsVerdict(fields, table, k + 1), Filled(fields, table, k + 1), i + |Rest(fields, k)|);
  }

  lemma {:induction false} FieldsSpelled(fields: seq<Form>, table: seq<Field>, k: nat, bs: bytes, i: nat)
    requires Typed(fields, table) && k <= |table| && (forall x | x in fields :: Proper(x)) && At(bs, i, Rest(fields, k))
    ensures FieldsHold(fields, table, k, bs, i)
    decreases fields, |table| - k, 4
  {
    hide ReadField, ReadFields, Bytes, Proper, FieldMeaning, FitsF, FieldsHold, Rest;
    TypedSize(fields, table);
    if k == |table| {
      FieldsEnd(fields, table, bs, i);
    } else if k < |fields| && fields[k] != NullF {
      var j := i + |Bytes(fields[k])|;
      RestStep(fields, k);
      AtSplit(bs, i, Bytes(fields[k]), Rest(fields, k + 1));
      FieldSpelled(table[k].kind, fields[k], bs, i);
      FieldsSpelled(fields, table, k + 1, bs, j);
      PresentField(fields, table, k, bs, i);
    } else {
      var j := if k < |fields| then i + 1 else i;
      RestAfter(fields, k, bs, i);
      FieldsSpelled(fields, table, k + 1, bs, j);
      AbsentField(fields, table, k, bs, i);
    }
  }

  lemma {:induction false} RestAfter(fields: seq<Form>, k: nat, bs: bytes, i: nat)
    requires At(bs, i, Rest(fields, k)) && (k < |fields| ==> fields[k] == NullF)
    ensures At(bs, if k < |fields| then i + 1 else i, Rest(fields, k + 1))
  {
    hide Rest, Bytes;
    RestStep(fields, k);
    RestStep(fields, k + 1);
    if k < |fields| {
      NullBytes();
      AtSplit(bs, i, Bytes(fields[k]), Rest(fields, k + 1));
    }
  }

  lemma {:induction false} NullBytes()
    ensures Bytes(NullF) == [0x40]
  {
  }

  lemma {:induction false} FieldsEnd(fields: seq<Form>, table: seq<Field>, bs: bytes, i: nat)
    requires |fields| <= |table|
    ensures FieldsHold(fields, table, |table|, bs, i)
  {
  }

  lemma {:induction false} FieldListSpelled(list: ListForm, count: nat, body: bytes, bs: bytes, i: nat)
    requires FieldListFits(list, count, body) && At(bs, i, FieldList(list, count, body)) && (count == 0 ==> body == [])
    ensures var j := i + |FieldList(list, count, body)| - |body|;
            ReadListHeader(bs, i) == Ok(count, j) && At(bs, j, body)
  {
    hide ReadHeader, Compound, CompoundFits;
    match list
    case Empty => AtHead(bs, i, [0x45]);
    case Narrow => CompoundSpelled(0xc0, 0xd0, false, count, body, bs, i); ListHeaderAt(bs, i, count, i + 3);
    case Wide => CompoundSpelled(0xc0, 0xd0, true, count, body, bs, i); ListHeaderAt(bs, i, count, i + 9);
  }

  lemma {:induction false} CompositeHolds(code: byte, bs: bytes, i: nat, j: nat, n: nat, m: nat, d: Verdict, r: seq<Value>, e: nat)
    requires i < |bs| && bs[i] == 0x00 && ReadNum(bs, i + 1) == Ok(Num(Ulong, code), j)
    requires ReadListHeader(bs, j) == Ok(n, m) && n <= |Schema(code)|
    requires ReadFields(bs, m, Schema(code), 0, n) == Told(d, r, e)
    ensures UnmarshalComposite(bs, i, code) == Told(d, Composite(code, r), e)
  {
    hide Schema, ReadFields, ReadNum, ReadListHeader;
  }

  /**
   A composite of any type, its descriptor and field list written in any way, fields null or left off
   at will: every field is read in its place, and it is refused exactly when a mandatory one is missing.
   */
  lemma {:induction false} CompositeSpelled(wideCode: bool, code: byte, list: ListForm, fields: seq<Form>,
                                            bs: bytes, i: nat)
    requires Typed(fields, Standard(code)) && (forall x | x in fields :: Proper(x))
    requires FieldListFits(list, |fields|, ItemBytes(fields, 0))
    requires At(bs, i, Bytes(CompositeF(wideCode, code, list, fields)))
    ensures UnmarshalComposite(bs, i, code) ==
            if Complete(fields, Standard(code))
            then Ok(Composite(code, Filled(fields, Standard(code), 0)), i + |Bytes(CompositeF(wideCode, code, list, fields))|)
            else Err
    decreases CompositeF(wideCode, code, list, fields), 0, 2
  {
    hide UnmarshalComposite, ReadFields, ReadField, ReadListHeader, ReadNum, PeekDescriptor, PeekMessageType;
    hide Standard, FieldList, FieldListFits, Filled, FitsF, Proper;
    var body, d := ItemBytes(fields, 0), Descriptor(wideCode, code);
    var l := FieldList(list, |fields|, body);
    var j := i + |d|;
    AtSplit(bs, i, d, l);
    DescriptorSpelled(wideCode, code, bs, i);
    FieldListSpelled(list, |fields|, body, bs, j);
    TablesAgree(code);
    var m := j + |l| - |body|;
    assert Rest(fields, 0) == body;
    FieldsSpelled(fields, Standard(code), 0, bs, m);
    CompositeHolds(code, bs, i, j, |fields|, m, FieldsVerdict(fields, Standard(code), 0),
                   Filled(fields, Standard(code), 0), m + |body|);
  }

  /** Wherever a value may stand, the composites that may stand there are read as such. */
  lemma {:induction false} NestedSpelled(wideCode: bool, code: byte, list: ListForm, fields: seq<Form>, bs: bytes, i: nat)
    requires FreeComposite(code) && At(bs, i, Bytes(CompositeF(wideCode, code, list, fields)))
    ensures ReadAny(bs, i) == UnmarshalComposite(bs, i, code)
  {
    hide UnmarshalComposite, PeekDescriptor, FieldList, ItemBytes, ReadNum;
    AtSplit(bs, i, Descriptor(wideCode, code), FieldList(list, |fields|, ItemBytes(fields, 0)));
    DescriptorSpelled(wideCode, code, bs, i);
    assert ReadComposite(bs, i) == UnmarshalComposite(bs, i, code);
  }

  /** A field's own reader takes every form of its type. */
  lemma {:induction false} FieldSpelled(kind: Kind, t: Form, bs: bytes, i: nat)
    requires t != NullF && Proper(t) && FitsF(kind, t) && At(bs, i, Bytes(t))
    ensures ReadField(bs, i, kind) == Ok(FieldMeaning(kind, t), i + |Bytes(t)|)
    decreases t, 0, 4
  {
    hide ReadAny, ReadMap, UnmarshalComposite, ReadFields, ReadNum, ReadVar, ReadString, ReadBool, ReadArray, ReadHeader;
    hide Bytes, Meaning, ReadField;
    match kind
    case KAny => AnySpelled(t, bs, i); FieldAny(t, bs, i);
    case KBool => BoolField(t, bs, i);
    case KBinary => VarField(kind, t, bs, i);
    case KString => VarField(kind, t, bs, i);
    case KStringMap => MapSpelled(t.wide, t.pairs, StringKey, bs, i); MapField(kind, t, bs, i);
    case KAnnotations => MapSpelled(t.wide, t.pairs, AnnotationKey, bs, i); MapField(kind, t, bs, i);
    case KError =>
      ProperComposite(t);
      CompositeSpelled(t.wideCode, t.ctype, t.list, t.fields, bs, i);
      CompositeField(kind, t, bs, i);
    case KState =>
      ProperComposite(t);
      CompositeSpelled(t.wideCode, t.ctype, t.list, t.fields, bs, i);
      CompositeField(kind, t, bs, i);
    case KSymbols => SymbolsField(t, bs, i);
    case _ => NumField(kind, t, bs, i);
  }

  lemma {:induction false} FieldAny(t: Form, bs: bytes, i: nat)
    ensures ReadField(bs, i, KAny) == ReadAny(bs, i) && FieldMeaning(KAny, t) == Meaning(t)
  {
    hide ReadAny, Meaning;
  }

  lemma {:induction false} BoolField(t: Form, bs: bytes, i: nat)
    requires FitsF(KBool, t) && At(bs, i, Bytes(t))
    ensures ReadField(bs, i, KBool) == Ok(FieldMeaning(KBool, t), i + |Bytes(t)|)
  {
    hide ReadAny, ReadBool;
    PlainSpelled(t, bs, i);
  }

  lemma {:induction false} VarField(kind: Kind, t: Form, bs: bytes, i: nat)
    requires (kind == KBinary || kind == KString) && Proper(t) && FitsF(kind, t) && At(bs, i, Bytes(t))
    ensures ReadField(bs, i, kind) == Ok(FieldMeaning(kind, t), i + |Bytes(t)|)
  {
    hide ReadVar, Sized;
    VarSpelled(t.vcode, t.s, bs, i);
  }

  lemma {:induction false} MapField(kind: Kind, t: Form, bs: bytes, i: nat)
    requires (kind == KStringMap || kind == KAnnotations) && t.MapF?
    requires ReadMap(bs, i, if kind == KStringMap then StringKey else AnnotationKey)
          == Ok(Map(Entries(t.pairs, 0, [])), i + |Bytes(t)|)
    ensures ReadField(bs, i, kind) == Ok(FieldMeaning(kind, t), i + |Bytes(t)|)
  {
    hide ReadMap, Bytes, Entries;
  }

  lemma {:induction false} ProperComposite(t: Form)
    requires Proper(t) && t.CompositeF?
    ensures Typed(t.fields, Standard(t.ctype)) && Complete(t.fields, Standard(t.ctype))
    ensures FieldListFits(t.list, |t.fields|, ItemBytes(t.fields, 0)) && forall x | x in t.fields :: Proper(x)
  {
    hide Standard, FieldListFits, ItemBytes, Typed, Complete;
  }

  lemma {:induction false} CompositeField(kind: Kind, t: Form, bs: bytes, i: nat)
    requires (kind == KError || kind == KState) && FitsF(kind, t) && At(bs, i, Bytes(t))
    requires |t.fields| <= |Standard(t.ctype)|
    requires UnmarshalComposite(bs, i, t.ctype)
          == Ok(Composite(t.ctype, Filled(t.fields, Standard(t.ctype), 0)), i + |Bytes(t)|)
    ensures ReadField(bs, i, kind) == Ok(FieldMeaning(kind, t), i + |Bytes(t)|)
  {
    hide UnmarshalComposite, Filled, Standard, FieldList, ItemBytes, PeekMessageType, PeekDescriptor, ReadNum;
    AtSplit(bs, i, Descriptor(t.wideCode, t.ctype), FieldList(t.list, |t.fields|, ItemBytes(t.fields, 0)));
    DescriptorSpelled(t.wideCode, t.ctype, bs, i);
  }

  lemma {:induction false} SymbolsField(t: Form, bs: bytes, i: nat)
    requires Proper(t) && FitsF(KSymbols, t) && At(bs, i, Bytes(t))
    ensures ReadField(bs, i, KSymbols) == Ok(FieldMeaning(KSymbols, t), i + |Bytes(t)|)
  {
    if t.VarArrayF? {
      hide ReadField, ReadArray, Proper, Bytes;
      VarArraySpelled(t.wide, t.vcode, t.ss, bs, i);
    } else {
      hide ReadString, ReadVar, Sized, ReadHeader, ReadVarArray;
      StringSpelled(t, bs, i);
      AtHead(bs, i, Bytes(t));
    }
  }

  lemma {:induction false} NumField(kind: Kind, t: Form, bs: bytes, i: nat)
    requires kind in {KUint, KUlong, KUshort, KUbyte, KTime, KMillis} && Proper(t) && FitsF(kind, t) && At(bs, i, Bytes(t))
    ensures ReadField(bs, i, kind) == Ok(FieldMeaning(kind, t), i + |Bytes(t)|)
  {
    hide ReadNum, FromBe, Pow256;
    NumSpelled(t.code, t.data, bs, i);
  }
}
