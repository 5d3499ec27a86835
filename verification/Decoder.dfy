/**
 The decoder, as functions from a byte string and a read index to a value and the index
 after it. Their contracts are the decoder's totality: on every byte string every reader
 ends, a success moves the index forward, and the index never passes the end.
 */
module Decoder {
  import opened Words
  import opened Values

  /** Panic is Go's run-time failure on inserting an unhashable key into a map. */
  datatype Result<+T> = Ok(val: T, next: nat) | Err | Panic {
    predicate IsFailure() { !Ok? }
    function PropagateFailure<U>(): Result<U>
      requires IsFailure()
    { if Err? then Err else Panic }
    function Extract(): (T, nat)
      requires Ok?
    { (val, next) }
  }

  // ---- scalars -----------------------------------------------------------------------

  /** The numeric kind and data width a constructor code announces. */
  function NumCode(c: byte): (r: Option<(NumKind, nat)>) {
    match c
    case 0x50 => Some((Ubyte, 1)) case 0x60 => Some((Ushort, 2))
    case 0x70 => Some((Uint, 4)) case 0x52 => Some((Uint, 1)) case 0x43 => Some((Uint, 0))
    case 0x80 => Some((Ulong, 8)) case 0x53 => Some((Ulong, 1)) case 0x44 => Some((Ulong, 0))
    case 0x51 => Some((Sbyte, 1)) case 0x61 => Some((Short, 2))
    case 0x71 => Some((Int, 4)) case 0x54 => Some((Int, 1))
    case 0x81 => Some((Long, 8)) case 0x55 => Some((Long, 1))
    case 0x72 => Some((Float, 4)) case 0x82 => Some((Double, 8))
    case 0x83 => Some((Timestamp, 8)) case 0x98 => Some((Uuid, 16))
    case _ => None
  }

  function VarCode(c: byte): (r: Option<(VarKind, nat)>) {
    match c
    case 0xa0 => Some((Binary, 1)) case 0xb0 => Some((Binary, 4))
    case 0xa1 => Some((Str, 1)) case 0xb1 => Some((Str, 4))
    case 0xa3 => Some((Symbol, 1)) case 0xb3 => Some((Symbol, 4))
    case _ => None
  }

  function ReadNum(bs: bytes, i: nat): (r: Result<Value>)
    ensures r.Ok? ==> i < r.next <= |bs| && r.val.Num?
    ensures !r.Panic?
  {
    if i >= |bs| then Err else
    match NumCode(bs[i])
    case None => Err
    case Some((k, w)) =>
      if i + 1 + w > |bs| then Err
      else Ok(Num(k, FromRaw(k, w, FromBe(bs[i + 1..i + 1 + w]))), i + 1 + w)
  }

  function ReadBool(bs: bytes, i: nat): (r: Result<Value>)
    ensures r.Ok? ==> i < r.next <= |bs| && r.val.Bool?
    ensures r.Ok? <==> i < |bs| && (bs[i] in {0x41, 0x42} || (bs[i] == 0x56 && i + 1 < |bs|))
    ensures r.Ok? ==> r.next == (if bs[i] == 0x56 then i + 2 else i + 1)
    ensures r.Ok? ==> (r.val.b <==> bs[i] == 0x41 || (bs[i] == 0x56 && bs[i + 1] != 0))
    ensures !r.Panic?
  {
    if i >= |bs| then Err
    else if bs[i] == 0x41 then Ok(Bool(true), i + 1)
    else if bs[i] == 0x42 then Ok(Bool(false), i + 1)
    else if bs[i] == 0x56 && i + 1 < |bs| then Ok(Bool(bs[i + 1] != 0), i + 2)
    else Err
  }

  /** A length in w bytes, then that many bytes. */
  function ReadSized(bs: bytes, i: nat, w: nat): (r: Result<bytes>)
    ensures r.Ok? ==> i + w <= r.next <= |bs|
    ensures !r.Panic?
  {
    if i + w > |bs| then Err
    else
      var n := FromBe(bs[i..i + w]);
      if i + w + n > |bs| then Err else Ok(bs[i + w..i + w + n], i + w + n)
  }

  /** Binary, string or symbol; a symbol is read as a string. */
  function ReadVar(bs: bytes, i: nat): (r: Result<Value>)
    ensures r.Ok? ==> i < r.next <= |bs| && r.val.Var?
    ensures !r.Panic?
  {
    if i >= |bs| then Err else
    match VarCode(bs[i])
    case None => Err
    case Some((k, w)) =>
      var (s, j) :- ReadSized(bs, i + 1, w);
      Ok(Var(if k == Symbol then Str else k, s), j)
  }

  // ---- compound headers --------------------------------------------------------------

  /** Count of a compound value whose constructors are c8 and c32. */
  function ReadHeader(bs: bytes, i: nat, c8: byte, c32: byte): (r: Result<nat>)
    ensures r.Ok? ==> i < r.next <= |bs|
    ensures !r.Panic?
  {
    if i >= |bs| then Err
    else if bs[i] == c8 then
      if i + 3 > |bs| || bs[i + 1] > |bs| - i - 2 then Err else Ok(bs[i + 2], i + 3)
    else if bs[i] == c32 then
      if i + 9 > |bs| || FromBe(bs[i + 1..i + 5]) > |bs| - i - 5 then Err
      else Ok(FromBe(bs[i + 5..i + 9]), i + 9)
    else Err
  }

  function ReadListHeader(bs: bytes, i: nat): (r: Result<nat>)
    ensures r.Ok? ==> i < r.next <= |bs|
    ensures !r.Panic?
  {
    if i < |bs| && bs[i] == 0x45 then Ok(0, i + 1) else ReadHeader(bs, i, 0xc0, 0xd0)
  }

  function ReadMapHeader(bs: bytes, i: nat): (r: Result<nat>)
    ensures r.Ok? ==> i < r.next <= |bs| && r.val <= |bs| - r.next
    ensures !r.Panic?
  {
    var (n, j) :- ReadHeader(bs, i, 0xc1, 0xd1);
    if n > |bs| - j then Err else Ok(n, j)
  }

  // ---- arrays ------------------------------------------------------------------------

  function ReadNums(bs: bytes, i: nat, n: nat, k: NumKind, w: nat): (ns: seq<int>)
    requires i + n * w <= |bs|
    ensures |ns| == n
    decreases n
  {
    if n == 0 then []
    else
      assert n * w == w + (n - 1) * w;
      [FromRaw(k, w, FromBe(bs[i..i + w]))] + ReadNums(bs, i + w, n - 1, k, w)
  }

  function ReadFlags(bs: bytes, i: nat, n: nat): (fs: seq<bool>)
    requires i + n <= |bs|
    ensures |fs| == n && forall t | 0 <= t < n :: fs[t] <==> bs[i + t] != 0
    decreases n
  {
    if n == 0 then [] else [bs[i] != 0] + ReadFlags(bs, i + 1, n - 1)
  }

  function ReadSizedItems(bs: bytes, i: nat, n: nat, w: nat): (r: Result<seq<bytes>>)
    ensures r.Ok? ==> i <= r.next && |r.val| == n && (i <= |bs| ==> r.next <= |bs|)
    ensures !r.Panic?
    decreases n
  {
    if n == 0 then Ok([], i)
    else
      var (s, j) :- ReadSized(bs, i, w);
      var (ss, m) :- ReadSizedItems(bs, j, n - 1, w);
      Ok([s] + ss, m)
  }

  function ReadNumArray(bs: bytes, j: nat, n: nat, k: NumKind, w: nat): (r: Result<Value>)
    requires j < |bs|
    ensures r.Ok? ==> j < r.next <= |bs| && r.val.NumArray?
    ensures !r.Panic?
  {
    var size: nat := n * w;
    if j + 1 + size > |bs| then Err
    else Ok(NumArray(k, ReadNums(bs, j + 1, n, k, w)), j + 1 + size)
  }

  /** Elements after the header; strings, symbols and binaries are taken to fill two bytes each. */
  function ReadVarArray(bs: bytes, j: nat, n: nat, k: VarKind, w: nat): (r: Result<Value>)
    requires j < |bs|
    ensures r.Ok? ==> j < r.next <= |bs| && r.val.VarArray?
    ensures !r.Panic?
  {
    if n * 2 > |bs| - j then Err
    else
      var (ss, m) :- ReadSizedItems(bs, j + 1, n, w);
      Ok(VarArray(k, ss), m)
  }

  function ReadArray(bs: bytes, i: nat): (r: Result<Value>)
    ensures r.Ok? ==> i < r.next <= |bs|
    ensures !r.Panic?
  {
    var (n, j) :- ReadHeader(bs, i, 0xe0, 0xf0);
    if j >= |bs| then Err
    else if bs[j] == 0x56 then
      if j + 1 + n > |bs| then Err else Ok(BoolArray(ReadFlags(bs, j + 1, n)), j + 1 + n)
    else if bs[j] == 0x41 || bs[j] == 0x42 then
      Ok(BoolArray(seq(n, _ => bs[j] == 0x41)), j + 1)
    else match (NumCode(bs[j]), VarCode(bs[j]))
      case (Some((k, w)), _) => ReadNumArray(bs, j, n, k, w)
      case (None, Some((k, w))) => ReadVarArray(bs, j, n, k, w)
      case (None, None) => Err
  }

  // ---- maps --------------------------------------------------------------------------

  /** Values Go can use as map keys: slices and maps are not, nor structs holding one. */
  predicate Hashable(v: Value) {
    match v
    case Described(d, x) => Hashable(d) && Hashable(x)
    case Var(k, _) => k != Binary
    case List(_) | Map(_) | NumArray(_, _) | BoolArray(_) | VarArray(_, _) => false
    case _ => true
  }

  /** Assignment m[k] = x on a map kept as its entries. */
  function Insert(es: seq<Entry>, k: Value, x: Value): (r: seq<Entry>)
  {
    if es == [] then [Entry(k, x)]
    else if es[0].key == k then [Entry(k, x)] + es[1..]
    else [es[0]] + Insert(es[1..], k, x)
  }

  datatype KeyMode = AnyKey | StringKey | AnnotationKey

  /** What one loop turn does with a decoded key. */
  function KeyOutcome(mode: KeyMode, k: Value): (r: Result<()>) {
    if mode.StringKey? || Hashable(k) then Ok((), 0)
    else if mode.AnyKey? && !k.Described? then Err
    else Panic
  }

  // ---- the recursive readers ---------------------------------------------------------

  function ReadAny(bs: bytes, i: nat): (r: Result<Value>)
    ensures r.Ok? ==> i < r.next <= |bs|
    decreases |bs| - i, 2, 0
  {
    if i >= |bs| then Err
    else
      var c := bs[i];
      if c == 0x40 then Ok(Null, i + 1)
      else if c == 0x00 then ReadComposite(bs, i)
      else if c == 0x41 || c == 0x42 || c == 0x56 then ReadBool(bs, i)
      else if NumCode(c).Some? then ReadNum(bs, i)
      else if VarCode(c).Some? then ReadVar(bs, i)
      else if c == 0xe0 || c == 0xf0 then ReadArray(bs, i)
      else if c == 0x45 || c == 0xc0 || c == 0xd0 then ReadList(bs, i)
      else if c == 0xc1 || c == 0xd1 then ReadMap(bs, i, AnyKey)
      else Err
  }

  function ReadList(bs: bytes, i: nat): (r: Result<Value>)
    ensures r.Ok? ==> i < r.next <= |bs|
    decreases |bs| - i, 1, 0
  {
    var (n, j) :- ReadListHeader(bs, i);
    if n > |bs| - j then Err
    else
      var (vs, m) :- ReadItems(bs, j, n);
      Ok(List(vs), m)
  }

  function ReadItems(bs: bytes, i: nat, n: nat): (r: Result<seq<Value>>)
    ensures r.Ok? ==> i <= r.next && |r.val| == n && (i <= |bs| ==> r.next <= |bs|)
    decreases |bs| - i, 4, n
  {
    if n == 0 then Ok([], i)
    else
      var (v, j) :- ReadAny(bs, i);
      var (vs, m) :- ReadItems(bs, j, n - 1);
      Ok([v] + vs, m)
  }

  function ReadMap(bs: bytes, i: nat, mode: KeyMode): (r: Result<Value>)
    ensures r.Ok? ==> i < r.next <= |bs| && r.val.Map?
    decreases |bs| - i, 1, 0
  {
    var (n, j) :- ReadMapHeader(bs, i);
    var (es, m) :- ReadEntries(bs, j, n, mode, []);
    Ok(Map(es), m)
  }

  /** The pair loop of the map decoders: count drops by two each turn. */
  function ReadEntries(bs: bytes, i: nat, count: nat, mode: KeyMode, acc: seq<Entry>): (r: Result<seq<Entry>>)
    ensures r.Ok? ==> i <= r.next && (i <= |bs| ==> r.next <= |bs|)
    decreases |bs| - i, 4, count
  {
    if count == 0 then Ok(acc, i)
    else
      var (k, j) :- if mode.StringKey? then ReadString(bs, i) else ReadAny(bs, i);
      var (x, m) :- ReadAny(bs, j);
      var (_, _) :- KeyOutcome(mode, k);
      ReadEntries(bs, m, if count == 1 then 0 else count - 2, mode, Insert(acc, k, x))
  }

  function ReadString(bs: bytes, i: nat): (r: Result<Value>)
    ensures r.Ok? ==> i < r.next <= |bs| && r.val.Var? && r.val.vk == Str
    ensures !r.Panic?
  {
    var (v, j) :- ReadVar(bs, i);
    if v.vk == Binary then Err else Ok(v, j)
  }

  function ReadDescribed(bs: bytes, i: nat): (r: Result<Value>)
    requires i < |bs|
    ensures r.Ok? ==> i < r.next <= |bs| && r.val.Described?
    decreases |bs| - i, 0, 0
  {
    var (d, j) :- ReadAny(bs, i + 1);
    var (x, m) :- ReadAny(bs, j);
    Ok(Described(d, x), m)
  }

  /** The descriptor readComposite peeks at; anything but an unsigned long counts as 0. */
  function PeekDescriptor(bs: bytes, i: nat): (r: Option<nat>) {
    if i + 2 > |bs| then None
    else if bs[i + 1] == 0x53 then if i + 3 > |bs| then None else Some(bs[i + 2])
    else if bs[i + 1] == 0x80 then if i + 10 > |bs| then None else Some(FromBe(bs[i + 2..i + 10]))
    else Some(0)
  }

  function ReadComposite(bs: bytes, i: nat): (r: Result<Value>)
    requires i < |bs| && bs[i] == 0x00
    ensures r.Ok? ==> i < r.next <= |bs|
    decreases |bs| - i, 1, 0
  {
    match PeekDescriptor(bs, i)
    case None => Err
    case Some(d) =>
      if d < 256 && Nested(d) then UnmarshalComposite(bs, i, d)
      else if Refused(d) then Err
      else ReadDescribed(bs, i)
  }

  /** The message type and the length of the header carrying it. */
  function PeekMessageType(bs: bytes, i: nat): (r: Result<byte>)
    ensures r.Ok? ==> i + 2 <= r.next <= |bs|
    ensures !r.Panic?
  {
    if i + 3 > |bs| || bs[i] != 0 then Err
    else if bs[i + 1] == 0x44 then Ok(0, i + 2)
    else if bs[i + 1] == 0x53 then Ok(bs[i + 2], i + 3)
    else if bs[i + 1] == 0x80 && i + 10 <= |bs| then Ok(FromBe(bs[i + 2..i + 10]) % 256, i + 10)
    else Err
  }

  function UnmarshalComposite(bs: bytes, i: nat, code: byte): (r: Result<Value>)
    ensures r.Ok? ==> i < r.next <= |bs| && r.val.Composite? && r.val.code == code
    ensures r.Ok? ==> |r.val.fields| == |Schema(code)|
    decreases |bs| - i, 0, 0
  {
    if i >= |bs| || bs[i] != 0x00 then Err
    else
      var (d, j) :- ReadNum(bs, i + 1);
      if d.k != Ulong then Err
      else
        var (n, m) :- ReadListHeader(bs, j);
        if d.n % 256 != code || n > |Schema(code)| then Err
        else
          var (fs, e) :- ReadFields(bs, m, Schema(code), 0, n);
          Ok(Composite(code, fs), e)
  }

  /** Fields k.. of the schema, of which only those below n are on the wire. */
  function ReadFields(bs: bytes, i: nat, schema: seq<Field>, k: nat, n: nat): (r: Result<seq<Value>>)
    requires k <= |schema|
    ensures r.Ok? ==> i <= r.next && |r.val| == |schema| - k && (i <= |bs| ==> r.next <= |bs|)
    decreases |bs| - i, 4, |schema| - k
  {
    if k == |schema| then Ok([], i)
    else if k >= n || (i < |bs| && bs[i] == 0x40) then
      var j := if k >= n then i else i + 1;
      match schema[k].onNull
      case Required => Err
      case Default(v) =>
        var (vs, m) :- ReadFields(bs, j, schema, k + 1, n);
        Ok([v] + vs, m)
    else
      var (v, j) :- ReadField(bs, i, schema[k].kind);
      var (vs, m) :- ReadFields(bs, j, schema, k + 1, n);
      Ok([v] + vs, m)
  }

  function ReadNumOf(bs: bytes, i: nat, k: NumKind): (r: Result<Value>)
    ensures r.Ok? ==> i < r.next <= |bs|
    ensures !r.Panic?
  {
    var (v, j) :- ReadNum(bs, i);
    if v.k == k then Ok(v, j) else Err
  }

  /** The typed reader Unmarshal picks from the Go type of a field. */
  function ReadField(bs: bytes, i: nat, kind: Kind): (r: Result<Value>)
    ensures r.Ok? ==> i < r.next <= |bs|
    decreases |bs| - i, 3, 0
  {
    match kind
    case KUint => ReadNumOf(bs, i, Uint)
    case KUlong => ReadNumOf(bs, i, Ulong)
    case KUshort => ReadNumOf(bs, i, Ushort)
    case KUbyte => ReadNumOf(bs, i, Ubyte)
    case KTime => ReadNumOf(bs, i, Timestamp)
    case KMillis =>
      var (v, j) :- ReadNum(bs, i);
      if v.k.Uint? || v.k.Ulong? || v.k.Ubyte? || v.k.Ushort? then Ok(Num(Uint, v.n), j) else Err
    case KBool => ReadBool(bs, i)
    case KBinary =>
      var (v, j) :- ReadVar(bs, i);
      if v.vk == Binary then Ok(v, j) else Err
    case KString => ReadString(bs, i)
    case KAny => ReadAny(bs, i)
    case KStringMap => ReadMap(bs, i, StringKey)
    case KAnnotations => ReadMap(bs, i, AnnotationKey)
    case KError => UnmarshalComposite(bs, i, ERROR)
    case KState =>
      var (code, _) :- PeekMessageType(bs, i);
      if IsState(code) then UnmarshalComposite(bs, i, code) else Err
    case KSymbols =>
      if i < |bs| && (bs[i] == 0xa3 || bs[i] == 0xb3) then
        var (v, j) :- ReadString(bs, i);
        Ok(VarArray(Symbol, [v.s]), j)
      else
        var (n, j) :- ReadHeader(bs, i, 0xe0, 0xf0);
        if j >= |bs| then Err
        else match VarCode(bs[j])
          case Some((Symbol, w)) => ReadVarArray(bs, j, n, Symbol, w)
          case _ => Err
  }
}
