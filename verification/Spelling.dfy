/**
 The encodings of section 1.6 of the AMQP Types part, independent of any writer or reader: the forms
 a value may take on the wire, the bytes of each, and the value it stands for.
 */
module Spelling {
  import opened Words
  import opened Values
  import opened Decoder

  /** One way of writing a value. Wide compounds and arrays have four-byte sizes and counts. */
  datatype Form =
    | NullF
    | TrueF
    | FalseF
    | BoolF(b: bool)
    | NumF(code: byte, data: bytes)
    | VarF(vcode: byte, s: bytes)
    | List0F
    | ListF(wide: bool, items: seq<Form>)
    | MapF(wide: bool, pairs: seq<PairF>)
    | NumArrayF(wide: bool, code: byte, datas: seq<bytes>)
    | BoolArrayF(wide: bool, flags: seq<bool>)
    | SameArrayF(wide: bool, b: bool, count: uint32)
    | VarArrayF(wide: bool, vcode: byte, ss: seq<bytes>)
    | DescribedF(descriptor: Form, value: Form)
    | CompositeF(wideCode: bool, ctype: byte, list: ListForm, fields: seq<Form>)

  datatype PairF = PairF(key: Form, val: Form)

  /** How a composite's field list is written. */
  datatype ListForm = Empty | Narrow | Wide

  // ---- format codes ------------------------------------------------------------------

  /** Section 1.2: the high digit of a fixed-width code gives the width. */
  function FixedWidth(code: byte): (w: Option<nat>) {
    match code / 16
    case 4 => Some(0) case 5 => Some(1) case 6 => Some(2)
    case 7 => Some(4) case 8 => Some(8) case 9 => Some(16)
    case _ => None
  }

  function FixedType(code: byte): (k: Option<NumKind>) {
    if code == 0x50 then Some(Ubyte)
    else if code == 0x60 then Some(Ushort)
    else if code == 0x70 || code == 0x52 || code == 0x43 then Some(Uint)
    else if code == 0x80 || code == 0x53 || code == 0x44 then Some(Ulong)
    else if code == 0x51 then Some(Sbyte)
    else if code == 0x61 then Some(Short)
    else if code == 0x71 || code == 0x54 then Some(Int)
    else if code == 0x81 || code == 0x55 then Some(Long)
    else if code == 0x72 then Some(Float)
    else if code == 0x82 then Some(Double)
    else if code == 0x83 then Some(Timestamp)
    else if code == 0x98 then Some(Uuid)
    else None
  }

  predicate IsFixed(code: byte, data: bytes) {
    FixedType(code).Some? && FixedWidth(code) == Some(|data|)
  }

  /** Two's complement for byte, short, int, long and timestamp: the first bit is the sign. */
  function NumberIn(k: NumKind, data: bytes): (n: int) {
    if data != [] && data[0] >= 0x80 && (k == Sbyte || k == Short || k == Int || k == Long || k == Timestamp)
    then FromBe(data) - Pow256(|data|)
    else FromBe(data)
  }

  predicate IsBinary(code: byte) { code == 0xa0 || code == 0xb0 }
  predicate IsString(code: byte) { code == 0xa1 || code == 0xb1 }
  predicate IsSymbol(code: byte) { code == 0xa3 || code == 0xb3 }

  predicate IsVar(code: byte, s: bytes) {
    && (IsBinary(code) || IsString(code) || IsSymbol(code))
    && if code / 16 == 0xa then |s| < 256 else |s| < MOD32
  }

  function VarType(code: byte): (k: VarKind) {
    if IsBinary(code) then Binary else if IsString(code) then Str else Symbol
  }

  // ---- bytes -------------------------------------------------------------------------

  function Four(n: uint32): (s: bytes)
    ensures |s| == 4
  {
    [n / 0x100_0000, n / 0x1_0000 % 0x100, n / 0x100 % 0x100, n % 0x100]
  }

  /** A length in one byte or four, as the code's high digit says, and that many bytes. */
  function Sized(code: byte, s: bytes): (r: bytes) {
    if code / 16 == 0xa then [|s| % 0x100] + s else Four(Low32(|s|)) + s
  }

  /** Size, count and what is counted; the size covers the count. */
  function Compound(short: byte, long: byte, wide: bool, count: nat, body: bytes): (s: bytes)
    ensures |s| >= 3
  {
    if wide then [long] + Four(Low32(4 + |body|)) + Four(Low32(count)) + body
    else [short, (1 + |body|) % 0x100, count % 0x100] + body
  }

  predicate CompoundFits(wide: bool, count: nat, body: bytes) {
    if wide then 4 + |body| < MOD32 && count < MOD32 else 1 + |body| < 256 && count < 256
  }

  /** An array's count is followed by the constructor all elements share. */
  function Array(wide: bool, count: nat, code: byte, data: bytes): (s: bytes)
    ensures |s| >= 3
  {
    Compound(0xe0, 0xf0, wide, count, [code] + data)
  }

  predicate ArrayFits(wide: bool, count: nat, code: byte, data: bytes) {
    CompoundFits(wide, count, [code] + data)
  }

  function Joined(ss: seq<bytes>): (s: bytes) {
    if ss == [] then [] else ss[0] + Joined(ss[1..])
  }

  function FlagBytes(bs: seq<bool>): (s: bytes)
    ensures |s| == |bs|
  {
    if bs == [] then [] else [if bs[0] then 0x01 else 0x00] + FlagBytes(bs[1..])
  }

  function SizedAll(code: byte, ss: seq<bytes>): (s: bytes) {
    if ss == [] then [] else Sized(code, ss[0]) + SizedAll(code, ss[1..])
  }

  /** A descriptor as a small or a full unsigned long. */
  function Descriptor(wide: bool, code: byte): (s: bytes) {
    if wide then [0x00, 0x80, 0, 0, 0, 0, 0, 0, 0, code] else [0x00, 0x53, code]
  }

  function FieldList(list: ListForm, count: nat, body: bytes): (s: bytes)
    ensures |s| >= 1
  {
    match list
    case Empty => [0x45]
    case Narrow => Compound(0xc0, 0xd0, false, count, body)
    case Wide => Compound(0xc0, 0xd0, true, count, body)
  }

  predicate FieldListFits(list: ListForm, count: nat, body: bytes) {
    match list
    case Empty => count == 0
    case Narrow => CompoundFits(false, count, body)
    case Wide => CompoundFits(true, count, body)
  }

  function Bytes(t: Form): (s: bytes)
    ensures |s| >= 1
    decreases t, 0, 0
  {
    match t
    case NullF => [0x40]
    case TrueF => [0x41]
    case FalseF => [0x42]
    case BoolF(b) => [0x56, if b then 0x01 else 0x00]
    case NumF(code, data) => [code] + data
    case VarF(code, s) => [code] + Sized(code, s)
    case List0F => [0x45]
    case ListF(wide, items) => Compound(0xc0, 0xd0, wide, |items|, ItemBytes(items, 0))
    case MapF(wide, pairs) => Compound(0xc1, 0xd1, wide, 2 * |pairs|, PairBytes(pairs, 0))
    case NumArrayF(wide, code, datas) => Array(wide, |datas|, code, Joined(datas))
    case BoolArrayF(wide, flags) => Array(wide, |flags|, 0x56, FlagBytes(flags))
    case SameArrayF(wide, b, count) => Array(wide, count, if b then 0x41 else 0x42, [])
    case VarArrayF(wide, code, ss) => Array(wide, |ss|, code, SizedAll(code, ss))
    case DescribedF(d, x) => [0x00] + Bytes(d) + Bytes(x)
    case CompositeF(wideCode, code, list, fields) =>
      Descriptor(wideCode, code) + FieldList(list, |fields|, ItemBytes(fields, 0))
  }

  function ItemBytes(items: seq<Form>, k: nat): (s: bytes)
    requires k <= |items|
    ensures |s| >= |items| - k
    decreases items, |items| - k, 1
  {
    if k == |items| then [] else Bytes(items[k]) + ItemBytes(items, k + 1)
  }

  function PairBytes(pairs: seq<PairF>, k: nat): (s: bytes)
    requires k <= |pairs|
    ensures |s| >= 2 * (|pairs| - k)
    decreases pairs, |pairs| - k, 1
  {
    if k == |pairs| then [] else OnePair(pairs[k]) + PairBytes(pairs, k + 1)
  }

  function OnePair(p: PairF): (s: bytes)
    ensures |s| >= 2
    decreases p, 0, 1
  {
    Bytes(p.key) + Bytes(p.val)
  }

  // ---- composite types ---------------------------------------------------------------

  /**
   The fields of the composite types, by position, with what an absent one means: the standard's
   tables, and the zero value of the Go field where the standard gives no default.
   */
  function Standard(code: byte): (fs: seq<Field>) {
    match code
    // begin: remote-channel, next-outgoing-id, incoming-window, outgoing-window, handle-max,
    // offered-capabilities, desired-capabilities, properties
    case 0x11 =>
      [Field(KUshort, Default(Null)), Field(KUint, Required), Field(KUint, Required), Field(KUint, Required),
       Field(KUint, Default(Num(Uint, 4294967295))), Field(KSymbols, Default(Null)), Field(KSymbols, Default(Null)),
       Field(KStringMap, Default(Null))]
    // flow: next-incoming-id, incoming-window, next-outgoing-id, outgoing-window, handle,
    // delivery-count, link-credit, available, drain, echo, properties
    case 0x13 =>
      [Field(KUint, Default(Null)), Field(KUint, Required), Field(KUint, Required), Field(KUint, Required),
       Field(KUint, Default(Null)), Field(KUint, Default(Null)), Field(KUint, Default(Null)), Field(KUint, Default(Null)),
       Field(KBool, Default(Bool(false))), Field(KBool, Default(Bool(false))), Field(KStringMap, Default(Null))]
    // transfer: handle, delivery-id, delivery-tag, message-format, settled, more, rcv-settle-mode,
    // state, resume, aborted, batchable
    case 0x14 =>
      [Field(KUint, Required), Field(KUint, Default(Null)), Field(KBinary, Default(Null)), Field(KUint, Default(Null)),
       Field(KBool, Default(Bool(false))), Field(KBool, Default(Bool(false))), Field(KUbyte, Default(Null)),
       Field(KState, Default(Null)), Field(KBool, Default(Bool(false))), Field(KBool, Default(Bool(false))),
       Field(KBool, Default(Bool(false)))]
    // disposition: role, first, last, settled, state, batchable
    case 0x15 =>
      [Field(KBool, Required), Field(KUint, Required), Field(KUint, Default(Null)), Field(KBool, Default(Bool(false))),
       Field(KState, Default(Null)), Field(KBool, Default(Bool(false)))]
    // detach: handle, closed, error
    case 0x16 => [Field(KUint, Required), Field(KBool, Default(Bool(false))), Field(KError, Default(Null))]
    // end, close: error
    case 0x17 => [Field(KError, Default(Null))]
    case 0x18 => [Field(KError, Default(Null))]
    // error: condition, description, info
    case 0x1d => [Field(KString, Required), Field(KString, Default(Var(Str, []))), Field(KStringMap, Default(Null))]
    // received: section-number, section-offset
    case 0x23 => [Field(KUint, Required), Field(KUlong, Required)]
    // rejected: error
    case 0x25 => [Field(KError, Default(Null))]
    // modified: delivery-failed, undeliverable-here, message-annotations
    case 0x27 => [Field(KBool, Default(Bool(false))), Field(KBool, Default(Bool(false))), Field(KAnnotations, Default(Null))]
    // header: durable, priority, ttl, first-acquirer, delivery-count
    case 0x70 =>
      [Field(KBool, Default(Bool(false))), Field(KUbyte, Default(Num(Ubyte, 4))), Field(KMillis, Default(Num(Uint, 0))),
       Field(KBool, Default(Bool(false))), Field(KUint, Default(Num(Uint, 0)))]
    // properties: message-id, user-id, to, subject, reply-to, correlation-id, content-type,
    // content-encoding, absolute-expiry-time, creation-time, group-id, group-sequence, reply-to-group-id
    case 0x73 =>
      [Field(KAny, Default(Null)), Field(KBinary, Default(Null)), Field(KString, Default(Null)), Field(KString, Default(Null)),
       Field(KString, Default(Null)), Field(KAny, Default(Null)), Field(KString, Default(Null)), Field(KString, Default(Null)),
       Field(KTime, Default(Null)), Field(KTime, Default(Null)), Field(KString, Default(Null)), Field(KUint, Default(Null)),
       Field(KString, Default(Null))]
    // accepted, released, the lifetime policies, and codes that name no composite
    case _ => []
  }

  /** Codes of the composites that may stand anywhere a value may: error, delivery states, lifetime policies. */
  predicate FreeComposite(code: byte) {
    code == 0x1d || 0x23 <= code <= 0x27 || 0x2b <= code <= 0x2e
  }

  /** Codes that name a performative, a terminus, a SASL frame or a message section. */
  predicate PlacedComposite(code: int) {
    0x10 <= code <= 0x18 || code == 0x28 || code == 0x29 || 0x40 <= code <= 0x44 || 0x70 <= code <= 0x78
  }

  /** A form a field of the type may take. */
  predicate FitsF(k: Kind, t: Form) {
    match k
    case KUint => t.NumF? && FixedType(t.code) == Some(Uint)
    case KUlong => t.NumF? && FixedType(t.code) == Some(Ulong)
    case KUshort => t.NumF? && t.code == 0x60
    case KUbyte => t.NumF? && t.code == 0x50
    case KTime => t.NumF? && t.code == 0x83
    case KMillis => t.NumF? && FixedType(t.code) in {Some(Uint), Some(Ulong), Some(Ubyte), Some(Ushort)}
    case KBool => t.TrueF? || t.FalseF? || t.BoolF?
    case KBinary => t.VarF? && IsBinary(t.vcode)
    case KString => t.VarF? && (IsString(t.vcode) || IsSymbol(t.vcode))
    case KAny => true
    case KStringMap => t.MapF? && StringKeys(t.pairs)
    case KAnnotations => t.MapF?
    case KError => t.CompositeF? && t.ctype == 0x1d
    case KState => t.CompositeF? && 0x23 <= t.ctype <= 0x27
    case KSymbols => (t.VarF? || t.VarArrayF?) && IsSymbol(t.vcode)
  }

  predicate StringKeys(pairs: seq<PairF>) {
    forall p | p in pairs :: p.key.VarF? && (IsString(p.key.vcode) || IsSymbol(p.key.vcode))
  }

  /** The fields from position k on are absent, null or of their types; those the standard demands are there. */
  predicate Complete(fields: seq<Form>, table: seq<Field>) {
    forall k | 0 <= k < |table| :: table[k].onNull.Required? ==> k < |fields| && fields[k] != NullF
  }

  predicate Typed(fields: seq<Form>, table: seq<Field>) {
    |fields| <= |table| && forall k | 0 <= k < |fields| :: fields[k] == NullF || FitsF(table[k].kind, fields[k])
  }

  // ---- proper forms ------------------------------------------------------------------

  /** What Go can use as a map key. */
  predicate KeyF(t: Form) {
    match t
    case VarF(code, _) => !IsBinary(code)
    case List0F | ListF(_, _) | MapF(_, _) => false
    case NumArrayF(_, _, _) | BoolArrayF(_, _) | SameArrayF(_, _, _) | VarArrayF(_, _, _) => false
    case DescribedF(d, x) => KeyF(d) && KeyF(x)
    case _ => true
  }

  /** The unsigned long a descriptor gives, if it is one. */
  predicate NamesComposite(d: Form) {
    d.NumF? && FixedType(d.code) == Some(Ulong) && FromBe(d.data) < 256
    && (FreeComposite(FromBe(d.data)) || PlacedComposite(FromBe(d.data)))
  }

  /** An array of one-byte sizes with many empty elements is refused by this reader when nothing follows it. */
  predicate EnoughBytes(code: byte, ss: seq<bytes>) {
    code / 16 == 0xb || |ss| <= 1 + TotalLen(ss)
  }

  /** Sizes and counts fit, types are known, and keys are such as the reader can hold. */
  predicate Proper(t: Form)
    decreases t, 0, 0
  {
    match t
    case NumF(code, data) => IsFixed(code, data)
    case VarF(code, s) => IsVar(code, s)
    case ListF(wide, items) =>
      CompoundFits(wide, |items|, ItemBytes(items, 0)) && forall x | x in items :: Proper(x)
    case MapF(wide, pairs) =>
      && CompoundFits(wide, 2 * |pairs|, PairBytes(pairs, 0))
      && forall p | p in pairs :: Proper(p.key) && Proper(p.val) && KeyF(p.key)
    case NumArrayF(wide, code, datas) =>
      && ArrayFits(wide, |datas|, code, Joined(datas))
      && FixedType(code).Some? && forall k | 0 <= k < |datas| :: IsFixed(code, datas[k])
    case BoolArrayF(wide, flags) => ArrayFits(wide, |flags|, 0x56, FlagBytes(flags))
    case SameArrayF(wide, b, count) => ArrayFits(wide, count, if b then 0x41 else 0x42, [])
    case VarArrayF(wide, code, ss) =>
      && ArrayFits(wide, |ss|, code, SizedAll(code, ss)) && EnoughBytes(code, ss)
      && (IsBinary(code) || IsString(code) || IsSymbol(code)) && forall k | 0 <= k < |ss| :: IsVar(code, ss[k])
    case DescribedF(d, x) => Proper(d) && Proper(x) && !NamesComposite(d)
    case CompositeF(_, code, list, fields) =>
      && FreeComposite(code) && FieldListFits(list, |fields|, ItemBytes(fields, 0))
      && Typed(fields, Standard(code)) && Complete(fields, Standard(code)) && forall x | x in fields :: Proper(x)
    case _ => true
  }

  // ---- meaning -----------------------------------------------------------------------

  /** The value a form stands for, in Go's terms: a symbol is a string, and of equal keys the last counts. */
  function Meaning(t: Form): (v: Value)
    decreases t, 0, 0
  {
    match t
    case NullF => Null
    case TrueF => Bool(true)
    case FalseF => Bool(false)
    case BoolF(b) => Bool(b)
    case NumF(code, data) =>
      var k := FixedType(code); if k.Some? then Num(k.value, NumberIn(k.value, data)) else Null
    case VarF(code, s) => Var(if IsBinary(code) then Binary else Str, s)
    case List0F => List([])
    case ListF(_, items) => List(Meanings(items, 0))
    case MapF(_, pairs) => Map(Entries(pairs, 0, []))
    case NumArrayF(_, code, datas) =>
      var k := FixedType(code); if k.Some? then NumArray(k.value, Numbers(k.value, datas)) else Null
    case BoolArrayF(_, flags) => BoolArray(flags)
    case SameArrayF(_, b, count) => BoolArray(seq(count, _ => b))
    case VarArrayF(_, code, ss) => VarArray(VarType(code), ss)
    case DescribedF(d, x) => Described(Meaning(d), Meaning(x))
    case CompositeF(_, code, _, fields) =>
      if |fields| <= |Standard(code)| then Composite(code, Filled(fields, Standard(code), 0)) else Null
  }

  function Meanings(items: seq<Form>, k: nat): (vs: seq<Value>)
    requires k <= |items|
    ensures |vs| == |items| - k
    decreases items, |items| - k, 1
  {
    if k == |items| then [] else [Meaning(items[k])] + Meanings(items, k + 1)
  }

  function OneEntry(p: PairF): (e: Entry)
    decreases p, 0, 1
  {
    Entry(Meaning(p.key), Meaning(p.val))
  }

  function Entries(pairs: seq<PairF>, k: nat, acc: seq<Entry>): (es: seq<Entry>)
    requires k <= |pairs|
    decreases pairs, |pairs| - k, 1
  {
    if k == |pairs| then acc
    else
      var e := OneEntry(pairs[k]);
      Entries(pairs, k + 1, Insert(acc, e.key, e.val))
  }

  function Numbers(k: NumKind, datas: seq<bytes>): (ns: seq<int>)
    ensures |ns| == |datas|
  {
    if datas == [] then [] else [NumberIn(k, datas[0])] + Numbers(k, datas[1..])
  }

  /** A field's value: milliseconds are unsigned whatever they were written as, and one symbol is an array of one. */
  function FieldMeaning(kind: Kind, t: Form): (v: Value)
    decreases t, 0, 1
  {
    if kind.KMillis? && t.NumF? then Num(Uint, FromBe(t.data))
    else if kind.KSymbols? && t.VarF? then VarArray(Symbol, [t.s])
    else Meaning(t)
  }

  /** The fields of a composite from position k on, absent ones at their defaults. */
  function Filled(fields: seq<Form>, table: seq<Field>, k: nat): (vs: seq<Value>)
    requires |fields| <= |table| && k <= |table|
    ensures |vs| == |table| - k
    decreases fields, |table| - k, 2
  {
    if k == |table| then []
    else
      var v := if k < |fields| && fields[k] != NullF then FieldMeaning(table[k].kind, fields[k])
               else match table[k].onNull case Default(d) => d case Required => Null;
      [v] + Filled(fields, table, k + 1)
  }
}
