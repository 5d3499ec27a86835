/** What the decoder turns away, in the codes and sizes of the standard. */
module Refusals {
  import opened Words
  import opened Values
  import opened Decoder
  import opened Framing
  import opened Buffers
  import opened RoundTrip
  import opened Spelling
  import opened Conformance

  /** Codes that begin a value this reader knows; the decimal types and char are not among them. */
  predicate KnownCode(c: byte) {
    || c == 0x00 || 0x40 <= c <= 0x45 || c == 0x56 || FixedType(c).Some?
    || IsBinary(c) || IsString(c) || IsSymbol(c)
    || c == 0xc0 || c == 0xd0 || c == 0xc1 || c == 0xd1 || c == 0xe0 || c == 0xf0
  }

  lemma {:induction false} UnknownRefused(bs: bytes, i: nat)
    requires i >= |bs| || !KnownCode(bs[i])
    ensures ReadAny(bs, i) == Err
  {
  }

  /** A compound or an array that announces more bytes than there are is refused, whatever it holds. */
  lemma {:induction false} OversizeRefused(bs: bytes, i: nat)
    requires || (i + 2 <= |bs| && bs[i] in {0xc0, 0xc1, 0xe0} && bs[i + 1] > |bs| - i - 2)
             || (i + 5 <= |bs| && bs[i] in {0xd0, 0xd1, 0xf0} && FromBe(bs[i + 1..i + 5]) > |bs| - i - 5)
    ensures ReadAny(bs, i) == Err
  {
    hide FromBe, ReadItems, ReadEntries, ReadVarArray, ReadNumArray;
    assert ReadHeader(bs, i, 0xc0, 0xd0) == Err && ReadHeader(bs, i, 0xc1, 0xd1) == Err && ReadHeader(bs, i, 0xe0, 0xf0) == Err;
  }

  /** A list or map that announces more items than bytes are left is refused before any of them is read. */
  lemma {:induction false} OvercountRefused(bs: bytes, i: nat)
    requires || (i + 3 <= |bs| && bs[i] in {0xc0, 0xc1} && bs[i + 2] > |bs| - i - 3)
             || (i + 9 <= |bs| && bs[i] in {0xd0, 0xd1} && FromBe(bs[i + 5..i + 9]) > |bs| - i - 9)
    ensures ReadAny(bs, i) == Err
  {
    hide ReadItems, ReadEntries, FromBe, ReadArray, ReadNum, ReadVar, ReadBool, ReadComposite;
    if bs[i] in {0xc1, 0xd1} { assert ReadMap(bs, i, AnyKey) == Err; } else { assert ReadList(bs, i) == Err; }
  }

  /** A performative, terminus, SASL frame or section cannot stand where a value is read. */
  lemma {:induction false} PlacedRefused(code: byte, wide: bool, bs: bytes, i: nat)
    requires PlacedComposite(code) && At(bs, i, Descriptor(wide, code))
    ensures ReadAny(bs, i) == Err
  {
    hide PeekDescriptor, ReadNum, PeekMessageType, ReadDescribed;
    DescriptorSpelled(wide, code, bs, i);
    assert ReadComposite(bs, i) == Err;
  }

  // ---- fields ------------------------------------------------------------------------

  predicate ScalarKind(k: Kind) {
    k in {KUint, KUlong, KUshort, KUbyte, KTime, KMillis, KBool, KBinary, KString}
  }

  lemma {:induction false} HeadKinds(t: Form)
    requires Proper(t)
    ensures NumCode(Bytes(t)[0]).Some? ==> t.NumF?
    ensures VarCode(Bytes(t)[0]).Some? ==> t.VarF?
    ensures Bytes(t)[0] in {0x41, 0x42, 0x56} ==> t.TrueF? || t.FalseF? || t.BoolF?
  {
    hide ItemBytes, PairBytes, Joined, FlagBytes, SizedAll, Four, Meaning, Compound, Array, FieldList, CompoundFits, ArrayFits,
      FieldListFits, Standard, Typed, Complete, Sized, EnoughBytes, NamesComposite, NumCode, VarCode, FixedType;
    match t
    case NumF(code, data) => CodesAgree(code, |data|); NumNotVar(code);
    case VarF(code, s) => VarCodesAgree(code); VarNotNum(code);
    case ListF(wide, items) => CompoundHead(0xc0, 0xd0, wide, |items|, ItemBytes(items, 0)); HeadOther(Bytes(t)[0]);
    case MapF(wide, pairs) => CompoundHead(0xc1, 0xd1, wide, 2 * |pairs|, PairBytes(pairs, 0)); HeadOther(Bytes(t)[0]);
    case NumArrayF(wide, code, datas) => ArrayHead(wide, |datas|, code, Joined(datas)); HeadOther(Bytes(t)[0]);
    case BoolArrayF(wide, flags) => ArrayHead(wide, |flags|, 0x56, FlagBytes(flags)); HeadOther(Bytes(t)[0]);
    case SameArrayF(wide, b, count) => ArrayHead(wide, count, if b then 0x41 else 0x42, []); HeadOther(Bytes(t)[0]);
    case VarArrayF(wide, code, ss) => ArrayHead(wide, |ss|, code, SizedAll(code, ss)); HeadOther(Bytes(t)[0]);
    case _ => HeadOther(Bytes(t)[0]);
  }

  lemma {:induction false} HeadOther(c: byte)
    ensures c in {0x00, 0x40, 0x41, 0x42, 0x45, 0x56, 0xc0, 0xd0, 0xc1, 0xd1, 0xe0, 0xf0} ==> NumCode(c).None? && VarCode(c).None?
  {
  }

  lemma {:induction false} NumNotVar(code: byte)
    requires FixedType(code).Some?
    ensures VarCode(code).None? && code !in {0x41, 0x42, 0x56}
  {
  }

  lemma {:induction false} VarNotNum(code: byte)
    requires IsBinary(code) || IsString(code) || IsSymbol(code)
    ensures NumCode(code).None? && code !in {0x41, 0x42, 0x56}
  {
  }

  lemma {:induction false} CompoundHead(short: byte, long: byte, wide: bool, count: nat, body: bytes)
    ensures Compound(short, long, wide, count, body)[0] == if wide then long else short
  {
  }

  lemma {:induction false} ArrayHead(wide: bool, count: nat, code: byte, data: bytes)
    ensures Array(wide, count, code, data)[0] == if wide then 0xf0 else 0xe0
  {
    hide Compound;
    CompoundHead(0xe0, 0xf0, wide, count, [code] + data);
  }

  /** A field of a simple type is read exactly from the forms of its type. */
  lemma {:induction false} ScalarExact(kind: Kind, t: Form, bs: bytes, i: nat)
    requires ScalarKind(kind) && Proper(t) && t != NullF && At(bs, i, Bytes(t))
    ensures ReadField(bs, i, kind) == if FitsF(kind, t) then Ok(FieldMeaning(kind, t), i + |Bytes(t)|) else Err
  {
    if FitsF(kind, t) {
      hide ReadField, Proper, FitsF, Bytes, FieldMeaning;
      FieldSpelled(kind, t, bs, i);
    } else {
      AtHead(bs, i, Bytes(t));
      HeadKinds(t);
      if t.NumF? {
        hide ReadNum, NumberIn, FromBe, Pow256;
        NumSpelled(t.code, t.data, bs, i);
        NumRefused(kind, t, bs, i);
      } else if t.VarF? {
        hide ReadVar, Sized;
        VarSpelled(t.vcode, t.s, bs, i);
        VarRefused(kind, t, bs, i);
      } else {
        hide Bytes, Proper, FitsF;
        if kind == KBool { NoBool(bs, i); } else { OtherRefused(kind, bs, i); }
      }
    }
  }

  lemma {:induction false} NumRefused(kind: Kind, t: Form, bs: bytes, i: nat)
    requires ScalarKind(kind) && t.NumF? && IsFixed(t.code, t.data) && !FitsF(kind, t) && i < |bs| && bs[i] == t.code
    requires ReadNum(bs, i) == Ok(Num(FixedType(t.code).value, NumberIn(FixedType(t.code).value, t.data)), i + 1 + |t.data|)
    ensures ReadField(bs, i, kind) == Err
  {
    hide ReadNum, NumberIn;
  }

  lemma {:induction false} VarRefused(kind: Kind, t: Form, bs: bytes, i: nat)
    requires ScalarKind(kind) && t.VarF? && IsVar(t.vcode, t.s) && !FitsF(kind, t) && i < |bs| && bs[i] == t.vcode
    requires ReadVar(bs, i).Ok? && ReadVar(bs, i).val == Var(if IsBinary(t.vcode) then Binary else Str, t.s)
    ensures ReadField(bs, i, kind) == Err
  {
    hide ReadVar;
  }

  lemma {:induction false} OtherRefused(kind: Kind, bs: bytes, i: nat)
    requires ScalarKind(kind) && kind != KBool && i < |bs| && NumCode(bs[i]).None? && VarCode(bs[i]).None?
    ensures ReadField(bs, i, kind) == Err
  {
  }

  lemma {:induction false} NoBool(bs: bytes, i: nat)
    requires i < |bs| && bs[i] !in {0x41, 0x42, 0x56}
    ensures ReadField(bs, i, KBool) == Err
  {
  }

  /** A field list longer than the type has fields is refused. */
  lemma {:induction false} TooManyFields(code: byte, wide: bool, list: ListForm, count: nat, body: bytes, bs: bytes, i: nat)
    requires FieldListFits(list, count, body) && (count == 0 ==> body == []) && count > |Standard(code)|
    requires At(bs, i, Descriptor(wide, code) + FieldList(list, count, body))
    ensures UnmarshalComposite(bs, i, code) == Err
  {
    hide ReadFields, ReadNum, ReadListHeader, FieldList, FieldListFits, Standard, Schema, PeekDescriptor, PeekMessageType;
    AtSplit(bs, i, Descriptor(wide, code), FieldList(list, count, body));
    DescriptorSpelled(wide, code, bs, i);
    FieldListSpelled(list, count, body, bs, i + |Descriptor(wide, code)|);
    TablesAgree(code);
  }

  /** Of a full-width descriptor the reader looks at the last byte only. */
  lemma {:induction false} LowByteDecides(code: byte, d: bytes, list: ListForm, fields: seq<Form>, bs: bytes, i: nat)
    requires |d| == 8 && Typed(fields, Standard(code)) && (forall x | x in fields :: Proper(x))
    requires FieldListFits(list, |fields|, ItemBytes(fields, 0))
    requires At(bs, i, [0x00, 0x80] + d + FieldList(list, |fields|, ItemBytes(fields, 0)))
    ensures UnmarshalComposite(bs, i, code) ==
            if d[7] == code && Complete(fields, Standard(code))
            then Ok(Composite(code, Filled(fields, Standard(code), 0)),
                    i + 10 + |FieldList(list, |fields|, ItemBytes(fields, 0))|)
            else Err
  {
    hide ReadFields, ReadField, ReadListHeader, ReadNum, UnmarshalComposite;
    hide Standard, FieldList, FieldListFits, Filled, FitsF, Proper;
    var body := ItemBytes(fields, 0);
    var l := FieldList(list, |fields|, body);
    AtSplit(bs, i, [0x00, 0x80] + d, l);
    FullDescriptor(d, bs, i);
    FieldListSpelled(list, |fields|, body, bs, i + 10);
    TablesAgree(code);
    var m := i + 10 + |l| - |body|;
    assert Rest(fields, 0) == body;
    FieldsSpelled(fields, Standard(code), 0, bs, m);
    LowByteHolds(code, FromBe(d), bs, i, |fields|, m, FieldsVerdict(fields, Standard(code), 0),
                 Filled(fields, Standard(code), 0), m + |body|);
  }

  lemma {:induction false} FullDescriptor(d: bytes, bs: bytes, i: nat)
    requires |d| == 8 && At(bs, i, [0x00, 0x80] + d)
    ensures i + 10 <= |bs| && bs[i] == 0x00 && ReadNum(bs, i + 1) == Ok(Num(Ulong, FromBe(d)), i + 10)
    ensures FromBe(d) % 256 == d[7]
  {
    assert [0x00, 0x80] + d == [0x00] + ([0x80] + d);
    AtSplit(bs, i, [0x00], [0x80] + d);
    AtHead(bs, i, [0x00]);
    NumSpelled(0x80, d, bs, i + 1);
  }

  lemma {:induction false} LowByteHolds(code: byte, x: nat, bs: bytes, i: nat, n: nat, m: nat,
                                        v: Verdict, r: seq<Value>, e: nat)
    requires i + 10 <= |bs| && bs[i] == 0x00 && ReadNum(bs, i + 1) == Ok(Num(Ulong, x), i + 10)
    requires ReadListHeader(bs, i + 10) == Ok(n, m) && n <= |Schema(code)|
    requires ReadFields(bs, m, Schema(code), 0, n) == Told(v, r, e)
    ensures UnmarshalComposite(bs, i, code) == if x % 256 == code then Told(v, Composite(code, r), e) else Err
  {
    hide Schema, ReadFields, ReadNum, ReadListHeader;
  }

  /** A composite whose descriptor is not an unsigned long is refused, be it a symbol the standard allows. */
  lemma {:induction false} OtherDescriptor(code: byte, bs: bytes, i: nat)
    requires i + 1 < |bs| && FixedType(bs[i + 1]) != Some(Ulong)
    ensures UnmarshalComposite(bs, i, code) == Err
  {
    hide ReadFields, ReadListHeader, Schema, FromRaw, FromBe;
    assert ReadNum(bs, i + 1).Ok? ==> ReadNum(bs, i + 1).val.k != Ulong;
  }

  /** A composite of another type is refused. */
  lemma {:induction false} OtherType(code: byte, other: byte, wide: bool, rest: bytes, bs: bytes, i: nat)
    requires code != other && At(bs, i, Descriptor(wide, other) + rest)
    ensures UnmarshalComposite(bs, i, code) == Err
  {
    hide ReadFields, ReadNum, ReadListHeader, Schema, PeekDescriptor, PeekMessageType;
    AtSplit(bs, i, Descriptor(wide, other), rest);
    DescriptorSpelled(wide, other, bs, i);
  }

  // ---- maps --------------------------------------------------------------------------

  function Lookup(es: seq<Entry>, k: Value): (x: Option<Value>) {
    if es == [] then None else if es[0].key == k then Some(es[0].val) else Lookup(es[1..], k)
  }

  predicate DistinctKeys(es: seq<Entry>) {
    forall i, j | 0 <= i < j < |es| :: es[i].key != es[j].key
  }

  /** A delivery state's place takes no composite but the five states. */
  lemma {:induction false} StateRefused(code: byte, wide: bool, rest: bytes, bs: bytes, i: nat)
    requires !(0x23 <= code <= 0x27) && At(bs, i, Descriptor(wide, code) + rest)
    ensures ReadField(bs, i, KState) == Err
  {
    hide UnmarshalComposite, PeekMessageType, PeekDescriptor, ReadNum;
    AtSplit(bs, i, Descriptor(wide, code), rest);
    DescriptorSpelled(wide, code, bs, i);
  }

  /** Nor does the place of symbols take an array of anything else. */
  lemma {:induction false} SymbolsRefused(wide: bool, count: nat, code: byte, data: bytes, bs: bytes, i: nat)
    requires ArrayFits(wide, count, code, data) && !IsSymbol(code) && At(bs, i, Array(wide, count, code, data))
    ensures ReadField(bs, i, KSymbols) == Err
  {
    hide ReadVarArray, ReadHeader, Array, ArrayFits;
    ArraySpelled(wide, count, code, data, bs, i);
  }

  /** A map that announces an odd number of items is read as if there were one more. */
  lemma {:induction false} OddCountRounded(bs: bytes, i: nat, count: nat, mode: KeyMode, acc: seq<Entry>)
    requires count % 2 == 1
    ensures ReadEntries(bs, i, count, mode, acc) == ReadEntries(bs, i, count + 1, mode, acc)
    decreases count
  {
    hide ReadAny, ReadString, KeyOutcome, Insert;
    var k := if mode.StringKey? then ReadString(bs, i) else ReadAny(bs, i);
    if count > 1 && k.Ok? && ReadAny(bs, k.next).Ok? && KeyOutcome(mode, k.val).Ok? {
      var x := ReadAny(bs, k.next);
      OddCountRounded(bs, x.next, count - 2, mode, Insert(acc, k.val, x.val));
    }
  }

  /** Inserting is Go's assignment to a map: the key has the new value, the others have their own. */
  lemma {:induction false} InsertAssigns(es: seq<Entry>, k: Value, x: Value, other: Value)
    ensures Lookup(Insert(es, k, x), other) == if other == k then Some(x) else Lookup(es, other)
  {
    if es != [] && es[0].key != k {
      var r := Insert(es, k, x);
      assert r[1..] == Insert(es[1..], k, x);
      InsertAssigns(es[1..], k, x, other);
    } else if es != [] {
      assert Insert(es, k, x)[1..] == es[1..];
    }
  }

  lemma {:induction false} InsertDistinct(es: seq<Entry>, k: Value, x: Value)
    requires DistinctKeys(es)
    ensures DistinctKeys(Insert(es, k, x))
    ensures forall e | e in Insert(es, k, x) :: e.key == k || exists f | f in es :: f.key == e.key
  {
    if es != [] && es[0].key != k {
      var t := es[1..];
      assert DistinctKeys(t);
      InsertDistinct(t, k, x);
      var r, u := Insert(es, k, x), Insert(t, k, x);
      forall j | 0 <= j < |u| ensures u[j].key != es[0].key {
        assert u[j] in u;
        if u[j].key != k {
          var f :| f in t && f.key == u[j].key;
          var n :| 0 <= n < |t| && t[n] == f;
          assert es[n + 1] == f;
        }
      }
      forall i, j | 0 <= i < j < |r| ensures r[i].key != r[j].key {
        assert r[j] == u[j - 1] && (i > 0 ==> r[i] == u[i - 1]);
      }
      forall e | e in r ensures e.key == k || exists f | f in es :: f.key == e.key {
        if e == es[0] { assert es[0] in es; } else {
          assert e in u;
          if e.key != k {
            var f :| f in t && f.key == e.key;
            assert f in es;
          }
        }
      }
    } else if es != [] {
      var r := Insert(es, k, x);
      forall i, j | 0 <= i < j < |r| ensures r[i].key != r[j].key { assert es[i].key != es[j].key; }
      forall e | e in r ensures e.key == k || exists f | f in es :: f.key == e.key {
        if e.key != k { assert e in es; }
      }
    }
  }

  // ---- frame headers -----------------------------------------------------------------

  /**
   The frame at the head of a stream, by its bytes: malformed if its size does not cover the header or
   goes beyond 31 bits or its data offset is below two words, awaited while bytes are missing, skipped if
   it is nothing but a header, and otherwise what lies between header and size, on its channel.
   */
  lemma {:induction false} FrameExact(s: bytes)
    requires |s| >= 8
    ensures var size := 0x100_0000 * (s[0] as int) + 0x1_0000 * (s[1] as int) + 0x100 * (s[2] as int) + s[3] as int;
            NextFrame(s) == if size < 8 || s[4] < 2 || size > 0x7fff_ffff then Malformed
                            else if |s| < size then Starved
                            else if size == 8 then NextFrame(s[8..])
                            else Found(RawFrame(0x100 * (s[6] as int) + s[7] as int, s[8..size]), s[size..])
  {
    hide FromBe;
    var h := s[..8];
    assert h[..4] == [s[0], s[1], s[2], s[3]] && h[6..8] == [s[6], s[7]];
    FourBytesAre(s[0], s[1], s[2], s[3]);
    TwoBytesAre(s[6], s[7]);
    var size := HeaderOf(h).size;
    if 8 <= size <= |s| {
      assert s[8..][..size - 8] == s[8..size] && s[8..][size - 8..] == s[size..];
      assert size == 8 ==> s[8..][0..] == s[8..];
    }
  }

  lemma {:induction false} TwoBytesAre(a: byte, b: byte)
    ensures FromBe([a, b]) == 0x100 * (a as int) + b as int
  {
    assert [a, b][..1] == [a] && [a][..0] == [];
  }

  lemma {:induction false} FourBytesAre(a: byte, b: byte, c: byte, d: byte)
    ensures FromBe([a, b, c, d]) == 0x100_0000 * (a as int) + 0x1_0000 * (b as int) + 0x100 * (c as int) + d as int
  {
    TwoBytesAre(a, b);
    assert [a, b, c, d][..3] == [a, b, c] && [a, b, c][..2] == [a, b];
    assert FromBe([a, b, c]) == FromBe([a, b]) * 0x100 + c as int;
  }

  /** A frame begins with its size, a data offset of two words, the type of AMQP frames, and its channel. */
  lemma {:induction false} FrameLayout(f: RawFrame)
    requires Sendable(f)
    ensures var n := 8 + |f.body|;
            FrameBytes(f) == [n / 0x100_0000, n / 0x1_0000 % 0x100, n / 0x100 % 0x100, n % 0x100,
                              2, 0, f.channel / 0x100, f.channel % 0x100] + f.body
  {
    Be4(8 + |f.body|);
    Be2(f.channel);
    hide Be;
  }
}
