/**
 The AMQP type system as the encoder sees it: values, their constructor codes, their
 encodings, and the value a reader gives back for them.
 */
module Values {
  import opened Words

  datatype NumKind =
    | Ubyte | Ushort | Uint | Ulong
    | Sbyte | Short | Int | Long
    | Float | Double | Timestamp | Uuid

  datatype VarKind = Binary | Str | Symbol

  /**
   A Go value that can be marshaled. Numbers of every width share one constructor: floats are
   given by their IEEE bits, a timestamp by its milliseconds, a UUID by the number its bytes
   spell. A map is the sequence of its entries in iteration order. A composite lists its
   fields in declaration order, Null standing for an omitted one.
   */
  datatype Value =
    | Null
    | Bool(b: bool)
    | Num(k: NumKind, n: int)
    | Var(vk: VarKind, s: bytes)
    | List(items: seq<Value>)
    | Map(entries: seq<Entry>)
    | Described(descriptor: Value, value: Value)
    | Composite(code: byte, fields: seq<Value>)
    | NumArray(ak: NumKind, ns: seq<int>)
    | BoolArray(flags: seq<bool>)
    | VarArray(avk: VarKind, ss: seq<bytes>)

  datatype Entry = Entry(key: Value, val: Value)

  // ---- constructor codes -------------------------------------------------------------

  /** Bytes after the full-width constructor. */
  function Width(k: NumKind): (w: nat) {
    match k
    case Ubyte | Sbyte => 1
    case Ushort | Short => 2
    case Uint | Int | Float => 4
    case Ulong | Long | Double | Timestamp => 8
    case Uuid => 16
  }

  predicate Signed(k: NumKind) {
    k.Sbyte? || k.Short? || k.Int? || k.Long? || k.Timestamp?
  }

  function WideCode(k: NumKind): (c: byte) {
    match k
    case Ubyte => 0x50 case Ushort => 0x60 case Uint => 0x70 case Ulong => 0x80
    case Sbyte => 0x51 case Short => 0x61 case Int => 0x71 case Long => 0x81
    case Float => 0x72 case Double => 0x82 case Timestamp => 0x83 case Uuid => 0x98
  }

  /** The one-byte constructor of the kinds that have one. */
  function SmallCode(k: NumKind): (c: Option<byte>) {
    match k
    case Uint => Some(0x52) case Ulong => Some(0x53)
    case Int => Some(0x54) case Long => Some(0x55)
    case _ => None
  }

  function Code8(k: VarKind): (c: byte) {
    match k case Binary => 0xa0 case Str => 0xa1 case Symbol => 0xa3
  }

  function Code32(k: VarKind): (c: byte) {
    match k case Binary => 0xb0 case Str => 0xb1 case Symbol => 0xb3
  }

  predicate InRange(k: NumKind, n: int) {
    if Signed(k) then 0 <= 2 * n + Pow256(Width(k)) < 2 * Pow256(Width(k))
    else 0 <= n < Pow256(Width(k))
  }

  /** Two's complement in w bytes. */
  function Raw(n: int, w: nat): (u: int) {
    if n < 0 then n + Pow256(w) else n
  }

  /** The number of kind k that w raw bytes stand for. */
  function FromRaw(k: NumKind, w: nat, u: nat): (n: int) {
    if Signed(k) && w > 0 && 2 * u >= Pow256(w) then u - Pow256(w) else u
  }

  // ---- composite types ---------------------------------------------------------------

  datatype Kind =
    | KUint | KUlong | KUshort | KUbyte | KBool | KMillis | KTime
    | KBinary | KString | KAny | KStringMap | KAnnotations | KError | KState | KSymbols

  datatype OnNull = Required | Default(v: Value)

  datatype Field = Field(kind: Kind, onNull: OnNull)

  const ERROR: byte := 0x1d
  const BEGIN: byte := 0x11
  const FLOW: byte := 0x13
  const TRANSFER: byte := 0x14
  const DISPOSITION: byte := 0x15
  const DETACH: byte := 0x16
  const END: byte := 0x17
  const CLOSE: byte := 0x18
  const HEADER: byte := 0x70
  const PROPERTIES: byte := 0x73

  predicate IsState(code: byte) {
    0x23 <= code <= 0x27
  }

  /** Composites the generic reader decodes wherever a value may stand. */
  predicate Nested(code: byte) {
    code == ERROR || IsState(code) || 0x2b <= code <= 0x2e
  }

  /** Descriptors the generic reader refuses. */
  predicate Refused(code: int) {
    || 0x10 <= code <= 0x18
    || code == 0x28 || code == 0x29
    || 0x70 <= code <= 0x78
    || 0x40 <= code <= 0x44
  }

  function Opt(k: Kind): Field { Field(k, Default(Null)) }
  function Req(k: Kind): Field { Field(k, Required) }
  function Flag(): Field { Field(KBool, Default(Bool(false))) }

  /** The field tables passed to UnmarshalComposite. */
  function Schema(code: byte): (fs: seq<Field>) {
    if code == ERROR then [Req(KString), Field(KString, Default(Var(Str, []))), Opt(KStringMap)]
    else if code == 0x23 then [Req(KUint), Req(KUlong)]
    else if code == 0x25 then [Opt(KError)]
    else if code == 0x27 then [Flag(), Flag(), Opt(KAnnotations)]
    else if code == BEGIN then
      [Opt(KUshort), Req(KUint), Req(KUint), Req(KUint),
       Field(KUint, Default(Num(Uint, 0xffff_ffff))), Opt(KSymbols), Opt(KSymbols), Opt(KStringMap)]
    else if code == FLOW then
      [Opt(KUint), Req(KUint), Req(KUint), Req(KUint), Opt(KUint), Opt(KUint), Opt(KUint), Opt(KUint),
       Flag(), Flag(), Opt(KStringMap)]
    else if code == TRANSFER then
      [Req(KUint), Opt(KUint), Opt(KBinary), Opt(KUint), Flag(), Flag(), Opt(KUbyte), Opt(KState),
       Flag(), Flag(), Flag()]
    else if code == DISPOSITION then [Req(KBool), Req(KUint), Opt(KUint), Flag(), Opt(KState), Flag()]
    else if code == DETACH then [Req(KUint), Flag(), Opt(KError)]
    else if code == END || code == CLOSE then [Opt(KError)]
    else if code == HEADER then
      [Flag(), Field(KUbyte, Default(Num(Ubyte, 4))), Field(KMillis, Default(Num(Uint, 0))), Flag(),
       Field(KUint, Default(Num(Uint, 0)))]
    else if code == PROPERTIES then
      [Opt(KAny), Opt(KBinary), Opt(KString), Opt(KString), Opt(KString), Opt(KAny), Opt(KString),
       Opt(KString), Opt(KTime), Opt(KTime), Opt(KString), Opt(KUint), Opt(KString)]
    else []
  }

  /** A value the Go field behind a composite field of this kind can hold. */
  ghost predicate Fits(k: Kind, v: Value) {
    match k
    case KUint | KMillis => v.Num? && v.k == Uint
    case KUlong => v.Num? && v.k == Ulong
    case KUshort => v.Num? && v.k == Ushort
    case KUbyte => v.Num? && v.k == Ubyte
    case KTime => v.Num? && v.k == Timestamp
    case KBool => v.Bool?
    case KBinary => v.Var? && v.vk == Binary
    case KString => v.Var? && v.vk != Binary
    case KAny => true
    case KStringMap => v.Map? && forall e | e in v.entries :: e.key.Var? && e.key.vk != Binary
    case KAnnotations => v.Map?
    case KError => v.Composite? && v.code == ERROR
    case KState => v.Composite? && IsState(v.code)
    case KSymbols => v.VarArray? && v.avk == Symbol
  }

  /** How many fields MarshalComposite writes: up to the last one that is set. */
  function SetCount(fields: seq<Value>): (n: nat)
    ensures n <= |fields|
    ensures n > 0 ==> fields[n - 1] != Null
    ensures forall i | n <= i < |fields| :: fields[i] == Null
  {
    if fields == [] then 0
    else if fields[|fields| - 1] != Null then |fields|
    else SetCount(fields[..|fields| - 1])
  }

  // ---- what Marshal accepts ----------------------------------------------------------

  /** Continuation byte number k of the sequence starting at s[i] is present and well formed. */
  predicate Cont(s: bytes, i: nat) {
    i < |s| && 0x80 <= s[i] <= 0xbf
  }

  /** Length of the well-formed UTF-8 sequence at the head of s[i..], 0 if there is none. */
  function Utf8Len(s: bytes, i: nat): (n: nat)
    requires i < |s|
    ensures i + n <= |s|
  {
    var c := s[i];
    if c < 0x80 then 1
    else if 0xc2 <= c <= 0xdf && Cont(s, i + 1) then 2
    else if 0xe0 <= c <= 0xef && Cont(s, i + 1) && Cont(s, i + 2)
         && (c == 0xe0 ==> s[i + 1] >= 0xa0) && (c == 0xed ==> s[i + 1] <= 0x9f) then 3
    else if 0xf0 <= c <= 0xf4 && Cont(s, i + 1) && Cont(s, i + 2) && Cont(s, i + 3)
         && (c == 0xf0 ==> s[i + 1] >= 0x90) && (c == 0xf4 ==> s[i + 1] <= 0x8f) then 4
    else 0
  }

  predicate ValidUtf8(s: bytes, i: nat := 0)
    requires i <= |s|
    decreases |s| - i
  {
    i == |s| || (Utf8Len(s, i) > 0 && ValidUtf8(s, i + Utf8Len(s, i)))
  }

  predicate EncodableVar(k: VarKind, s: bytes) {
    |s| < MOD32 - 1 && (k == Str ==> ValidUtf8(s))
  }

  /** Marshal returns no error. Numbers outside their Go type's range are excluded by typing. */
  ghost predicate Encodable(v: Value)
    decreases v
  {
    match v
    case Null | Bool(_) | BoolArray(_) => true
    case Num(k, n) => InRange(k, n)
    case Var(k, s) => EncodableVar(k, s)
    case List(vs) => forall x | x in vs :: Encodable(x)
    case Map(es) => 2 * |es| <= MOD32 - 5 && forall e | e in es :: Encodable(e.key) && Encodable(e.val)
    case Described(d, x) => Encodable(d) && Encodable(x)
    case Composite(_, fs) => |fs| < MOD32 && forall x | x in fs :: Encodable(x)
    case NumArray(k, ns) => forall n | n in ns :: InRange(k, n)
    case VarArray(k, ss) => forall t | 0 <= t < |ss| :: |ss[t]| < MOD32 && (k == Str ==> ValidUtf8(ss[t]))
  }

  // ---- encodings ---------------------------------------------------------------------

  ghost function EncodeNum(k: NumKind, n: int): (s: bytes)
    requires InRange(k, n)
    ensures |s| >= 1
  {
    if (k == Uint || k == Ulong) && n == 0 then [if k == Uint then 0x43 else 0x44]
    else if (k == Uint || k == Ulong) && n < 256 then [SmallCode(k).value, n]
    else if (k == Int || k == Long) && -128 <= n < 128 then [SmallCode(k).value, n % 256]
    else [WideCode(k)] + Be(Raw(n, Width(k)), Width(k))
  }

  ghost function EncodeVar(k: VarKind, s: bytes): (r: bytes)
    requires |s| < MOD32
    ensures |r| >= 2
  {
    Pow256Small();
    if |s| < 256 then [Code8(k), |s|] + s
    else [Code32(k)] + Be(|s|, 4) + s
  }

  /** Compound header with 32-bit size and count. Both fields hold the low 32 bits only. */
  ghost function Header32(code: byte, count: nat, bodyLen: nat): (s: bytes)
    ensures |s| == 9
  {
    Pow256Small();
    [code] + Be(Low32(4 + bodyLen), 4) + Be(Low32(count), 4)
  }

  /** The kind of array header and element constructor chosen for a numeric array. */
  predicate NarrowArray(k: NumKind, ns: seq<int>) {
    match k
    case Uint | Ulong => forall n | n in ns :: n <= 255
    case Int | Long => forall n | n in ns :: n <= 127
    case _ => false
  }

  /** Go's conversion of an element to the unsigned type of w bytes. */
  function Residue(n: int, w: nat): (u: nat)
    ensures u < Pow256(w)
  {
    Pow256Small();
    if w == 1 then n % 256
    else if 0 <= Raw(n, w) < Pow256(w) then Raw(n, w)
    else 0
  }

  ghost function EncodeNums(ns: seq<int>, w: nat): (s: bytes)
    ensures |s| == |ns| * w
  {
    if ns == [] then []
    else
      assert |ns| * w == w + (|ns| - 1) * w;
      Be(Residue(ns[0], w), w) + EncodeNums(ns[1..], w)
  }

  ghost function ArrayHeader(count: nat, size: nat, elem: byte): (s: bytes)
    requires count <= size
    ensures |s| >= 4
  {
    Pow256Small();
    if size + 2 <= 255 then [0xe0, size + 2, count, elem]
    else [0xf0] + Be(Low32(size + 5), 4) + Be(Low32(count), 4) + [elem]
  }

  ghost function EncodeNumArray(k: NumKind, ns: seq<int>): (s: bytes)
    ensures |s| >= 4
  {
    var narrow := NarrowArray(k, ns);
    var w := if narrow then 1 else Width(k);
    var elem := if narrow then SmallCode(k).value else WideCode(k);
    assert |ns| <= |ns| * w;
    ArrayHeader(|ns|, |ns| * w, elem) + EncodeNums(ns, w)
  }

  function EncodeFlags(bs: seq<bool>): (s: bytes)
    ensures |s| == |bs|
  {
    if bs == [] then [] else [if bs[0] then 1 else 0] + EncodeFlags(bs[1..])
  }

  function TotalLen(ss: seq<bytes>): (n: nat) {
    if ss == [] then 0 else |ss[0]| + TotalLen(ss[1..])
  }

  predicate WideVarArray(ss: seq<bytes>) {
    exists t | 0 <= t < |ss| :: |ss[t]| > 255
  }

  /** Each element: its length in w bytes, then its bytes. */
  ghost function EncodeVars(ss: seq<bytes>, w: nat): (s: bytes)
    requires forall t | 0 <= t < |ss| :: |ss[t]| < Pow256(w)
  {
    if ss == [] then [] else Be(|ss[0]|, w) + ss[0] + EncodeVars(ss[1..], w)
  }

  ghost function EncodeVarArray(k: VarKind, ss: seq<bytes>): (s: bytes)
    requires forall t | 0 <= t < |ss| :: |ss[t]| < MOD32
    ensures |s| >= 4
  {
    Pow256Small();
    var w := if WideVarArray(ss) then 4 else 1;
    var elem := if w == 4 then Code32(k) else Code8(k);
    ArrayHeader(|ss|, TotalLen(ss) + |ss| * w, elem) + EncodeVars(ss, w)
  }

  /** The bytes Marshal appends. */
  ghost function Encode(v: Value): (s: bytes)
    requires Encodable(v)
    ensures |s| >= 1
    decreases v, 0, 0
  {
    match v
    case Null => [0x40]
    case Bool(b) => [if b then 0x41 else 0x42]
    case Num(k, n) => EncodeNum(k, n)
    case Var(k, s) => EncodeVar(k, s)
    case List(vs) =>
      if vs == [] then [0x45]
      else
        var body := EncodeRange(vs, 0, |vs|);
        Header32(0xd0, |vs|, |body|) + body
    case Map(es) =>
      var body := EncodeEntries(es, 0);
      Header32(0xd1, 2 * |es|, |body|) + body
    case Described(d, x) => [0x00] + Encode(d) + Encode(x)
    case Composite(code, fs) =>
      var n := SetCount(fs);
      if n == 0 then [0x00, 0x53, code, 0x45]
      else
        var body := EncodeRange(fs, 0, n);
        [0x00, 0x53, code] + Header32(0xd0, n, |body|) + body
    case NumArray(k, ns) => EncodeNumArray(k, ns)
    case BoolArray(bs) => ArrayHeader(|bs|, |bs|, 0x56) + EncodeFlags(bs)
    case VarArray(k, ss) => EncodeVarArray(k, ss)
  }

  ghost function EncodeRange(vs: seq<Value>, i: nat, n: nat): (s: bytes)
    requires i <= n <= |vs|
    requires forall x | x in vs :: Encodable(x)
    ensures |s| >= n - i
    decreases vs, n - i, 1
  {
    if i == n then [] else Encode(vs[i]) + EncodeRange(vs, i + 1, n)
  }

  ghost function EncodeEntry(e: Entry): (s: bytes)
    requires Encodable(e.key) && Encodable(e.val)
    ensures |s| >= 2
    decreases e, 0, 1
  {
    Encode(e.key) + Encode(e.val)
  }

  ghost function EncodeEntries(es: seq<Entry>, i: nat): (s: bytes)
    requires i <= |es|
    requires forall e | e in es :: Encodable(e.key) && Encodable(e.val)
    ensures |s| >= 2 * (|es| - i)
    decreases es, |es| - i, 1
  {
    if i == |es| then []
    else EncodeEntry(es[i]) + EncodeEntries(es, i + 1)
  }
}
