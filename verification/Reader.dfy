/** Unmarshaling from a buffer: each reader moves the read index as the decoder's functions say. */
module Reader {
  import opened Words
  import opened Values
  import opened Decoder
  import opened Buffers
  import opened Messages

  /** What a reader returns; the buffer's index says how far it got. */
  datatype Got<+T> = Got(value: T) | Failed | Panicked

  predicate Agrees<T(==)>(g: Got<T>, r: Result<T>, i: nat) {
    match r
    case Ok(v, j) => g == Got(v) && i == j
    case Err => g == Failed
    case Panic => g == Panicked
  }

  // ---- scalars -----------------------------------------------------------------------

  /** Buffer.Next of exactly n bytes. */
  method Take(r: Buffer, n: nat) returns (s: bytes, ok: bool)
    requires r.Valid()
    modifies r`i
    ensures r.Valid() && ok == (old(r.i) + n <= |r.b|)
    ensures ok ==> r.i == old(r.i) + n && s == r.b[old(r.i)..old(r.i) + n]
  {
    ghost var u := r.Unread();
    s, ok := r.Next(n);
    if ok {
      assert u == s + r.Unread() && u[..n] == s;
      assert s == r.b[old(r.i)..old(r.i) + n];
    }
  }

  method NumFrom(r: Buffer) returns (g: Got<Value>)
    requires r.Valid()
    modifies r`i
    ensures r.Valid() && Agrees(g, ReadNum(r.b, old(r.i)), r.i)
  {
    hide FromBe, FromRaw;
    if r.Len() == 0 { return Failed; }
    var code := NumCode(r.b[r.i]);
    if code.None? { return Failed; }
    r.Skip(1);
    var s, ok := Take(r, code.value.1);
    if !ok { return Failed; }
    return Got(Num(code.value.0, FromRaw(code.value.0, code.value.1, FromBe(s))));
  }

  method BoolFrom(r: Buffer) returns (g: Got<Value>)
    requires r.Valid()
    modifies r`i
    ensures r.Valid() && Agrees(g, ReadBool(r.b, old(r.i)), r.i)
  {
    var s, ok := Take(r, 1);
    if !ok { return Failed; }
    if s[0] == 0x41 || s[0] == 0x42 { return Got(Bool(s[0] == 0x41)); }
    if s[0] != 0x56 { return Failed; }
    s, ok := Take(r, 1);
    if !ok { return Failed; }
    return Got(Bool(s[0] != 0));
  }

  method SizedFrom(r: Buffer, w: nat) returns (g: Got<bytes>)
    requires r.Valid()
    modifies r`i
    ensures r.Valid() && Agrees(g, ReadSized(r.b, old(r.i), w), r.i)
  {
    hide FromBe;
    var s, ok := Take(r, w);
    if !ok { return Failed; }
    s, ok := Take(r, FromBe(s));
    if !ok { return Failed; }
    return Got(s);
  }

  method VarFrom(r: Buffer) returns (g: Got<Value>)
    requires r.Valid()
    modifies r`i
    ensures r.Valid() && Agrees(g, ReadVar(r.b, old(r.i)), r.i)
  {
    hide ReadSized;
    if r.Len() == 0 { return Failed; }
    var code := VarCode(r.b[r.i]);
    if code.None? { return Failed; }
    r.Skip(1);
    var s := SizedFrom(r, code.value.1);
    if !s.Got? { return Failed; }
    return Got(Var(if code.value.0 == Symbol then Str else code.value.0, s.value));
  }

  // ---- headers -----------------------------------------------------------------------

  method HeaderFrom(r: Buffer, c8: byte, c32: byte) returns (g: Got<nat>)
    requires r.Valid() && c8 != c32
    modifies r`i
    ensures r.Valid() && Agrees(g, ReadHeader(r.b, old(r.i), c8, c32), r.i)
  {
    hide FromBe;
    var s, ok := Take(r, 1);
    if !ok { return Failed; }
    if s[0] == c8 {
      s, ok := Take(r, 2);
      if !ok || s[0] > r.Len() + 1 { return Failed; }
      return Got(s[1]);
    }
    if s[0] != c32 { return Failed; }
    s, ok := Take(r, 8);
    if !ok { return Failed; }
    assert s[..4] == r.b[old(r.i) + 1..old(r.i) + 5] && s[4..] == r.b[old(r.i) + 5..old(r.i) + 9];
    if FromBe(s[..4]) > r.Len() + 4 { return Failed; }
    return Got(FromBe(s[4..]));
  }

  method ListHeaderFrom(r: Buffer) returns (g: Got<nat>)
    requires r.Valid()
    modifies r`i
    ensures r.Valid() && Agrees(g, ReadListHeader(r.b, old(r.i)), r.i)
  {
    hide ReadHeader;
    if r.Len() > 0 && r.b[r.i] == 0x45 {
      r.Skip(1);
      return Got(0);
    }
    g := HeaderFrom(r, 0xc0, 0xd0);
  }

  // ---- arrays ------------------------------------------------------------------------

  /** What is left to read, added to what has been read, is the whole. */
  ghost predicate Extends<T>(whole: Result<seq<T>>, acc: seq<T>, rest: Result<seq<T>>) {
    match rest
    case Ok(vs, m) => whole == Ok(acc + vs, m)
    case Err => whole == Err
    case Panic => whole == Panic
  }

  lemma {:induction false} ExtendsStart<T>(whole: Result<seq<T>>)
    ensures Extends(whole, [], whole)
  {
    if whole.Ok? { assert [] + whole.val == whole.val; }
  }

  /** One more element in front of what is left. */
  function Prepend<T>(x: T, rest: Result<seq<T>>): (r: Result<seq<T>>) {
    match rest
    case Ok(vs, m) => Ok([x] + vs, m)
    case Err => Err
    case Panic => Panic
  }

  lemma {:induction false} ExtendsStep<T>(whole: Result<seq<T>>, acc: seq<T>, x: T, rest: Result<seq<T>>)
    requires Extends(whole, acc, Prepend(x, rest))
    ensures Extends(whole, acc + [x], rest)
  {
    if rest.Ok? { assert acc + [x] + rest.val == acc + ([x] + rest.val); }
  }

  lemma {:induction false} ExtendsEnd<T>(whole: Result<seq<T>>, acc: seq<T>, i: nat)
    requires Extends(whole, acc, Ok([], i))
    ensures whole == Ok(acc, i)
  {
    assert acc + [] == acc;
  }

  lemma {:induction false} ExtendsFail<T>(whole: Result<seq<T>>, acc: seq<T>, rest: Result<seq<T>>)
    requires Extends(whole, acc, rest) && !rest.Ok?
    ensures whole == rest
  {
  }

  method NumsFrom(r: Buffer, n: nat, k: NumKind, w: nat) returns (ns: seq<int>)
    requires r.Valid() && r.i + n * w <= |r.b|
    modifies r`i
    ensures r.Valid() && r.i == old(r.i) + n * w && ns == ReadNums(r.b, old(r.i), n, k, w)
  {
    hide FromBe, FromRaw, ReadNums;
    ns := [];
    var t := 0;
    NumsNothing(r.b, r.i + n * w, k, w);
    while t < n
      invariant r.Valid() && 0 <= t <= n && r.i == old(r.i) + t * w && r.i + (n - t) * w <= |r.b|
      invariant ns + ReadNums(r.b, r.i, n - t, k, w) == ReadNums(r.b, old(r.i), n, k, w)
    {
      NumsMore(r.b, r.i, n - t, k, w);
      assert (t + 1) * w == t * w + w && (n - t) * w == (n - t - 1) * w + w;
      var s, ok := Take(r, w);
      ns := ns + [FromRaw(k, w, FromBe(s))];
      t := t + 1;
    }
  }

  lemma {:induction false} NumsNothing(b: bytes, i: nat, k: NumKind, w: nat)
    requires i <= |b|
    ensures ReadNums(b, i, 0, k, w) == []
  {
  }

  lemma {:induction false} NumsMore(b: bytes, i: nat, n: nat, k: NumKind, w: nat)
    requires n > 0 && i + n * w <= |b|
    ensures i + w + (n - 1) * w <= |b| && i + w <= |b|
    ensures ReadNums(b, i, n, k, w) == [FromRaw(k, w, FromBe(b[i..i + w]))] + ReadNums(b, i + w, n - 1, k, w)
  {
    assert n * w == w + (n - 1) * w;
  }

  method FlagsFrom(r: Buffer, n: nat) returns (fs: seq<bool>)
    requires r.Valid() && r.i + n <= |r.b|
    modifies r`i
    ensures r.Valid() && r.i == old(r.i) + n && fs == ReadFlags(r.b, old(r.i), n)
  {
    fs := [];
    var t := 0;
    while t < n
      invariant r.Valid() && 0 <= t <= n && r.i == old(r.i) + t
      invariant fs + ReadFlags(r.b, r.i, n - t) == ReadFlags(r.b, old(r.i), n)
    {
      var s, ok := Take(r, 1);
      fs := fs + [s[0] != 0];
      t := t + 1;
    }
  }

  method SizedItemsFrom(r: Buffer, n: nat, w: nat) returns (g: Got<seq<bytes>>)
    requires r.Valid()
    modifies r`i
    ensures r.Valid() && Agrees(g, ReadSizedItems(r.b, old(r.i), n, w), r.i)
  {
    hide ReadSized, Extends;
    ghost var whole := ReadSizedItems(r.b, r.i, n, w);
    ExtendsStart(whole);
    var acc: seq<bytes> := [];
    var t := 0;
    while t < n
      invariant r.Valid() && 0 <= t <= n && Extends(whole, acc, ReadSizedItems(r.b, r.i, n - t, w))
    {
      ghost var rest := ReadSizedItems(r.b, r.i, n - t, w);
      var s := SizedFrom(r, w);
      if !s.Got? {
        ExtendsFail(whole, acc, rest);
        return Failed;
      }
      ExtendsStep(whole, acc, s.value, ReadSizedItems(r.b, r.i, n - t - 1, w));
      acc := acc + [s.value];
      t := t + 1;
    }
    ExtendsEnd(whole, acc, r.i);
    return Got(acc);
  }

  method VarArrayFrom(r: Buffer, n: nat, k: VarKind, w: nat) returns (g: Got<Value>)
    requires r.Valid() && r.Len() > 0
    modifies r`i
    ensures r.Valid() && Agrees(g, ReadVarArray(r.b, old(r.i), n, k, w), r.i)
  {
    hide ReadSizedItems;
    if n * 2 > r.Len() { return Failed; }
    r.Skip(1);
    var ss := SizedItemsFrom(r, n, w);
    if !ss.Got? { return Failed; }
    return Got(VarArray(k, ss.value));
  }

  method NumArrayFrom(r: Buffer, n: nat, k: NumKind, w: nat) returns (g: Got<Value>)
    requires r.Valid() && r.Len() > 0
    modifies r`i
    ensures r.Valid() && Agrees(g, ReadNumArray(r.b, old(r.i), n, k, w), r.i)
  {
    hide ReadNums;
    if n * w > r.Len() - 1 { return Failed; }
    r.Skip(1);
    var ns := NumsFrom(r, n, k, w);
    return Got(NumArray(k, ns));
  }

  method ArrayFrom(r: Buffer) returns (g: Got<Value>)
    requires r.Valid()
    modifies r`i
    ensures r.Valid() && Agrees(g, ReadArray(r.b, old(r.i)), r.i)
  {
    hide ReadHeader, ReadFlags, ReadNumArray, ReadVarArray;
    var n := HeaderFrom(r, 0xe0, 0xf0);
    if !n.Got? || r.Len() == 0 { return Failed; }
    var c := r.b[r.i];
    if c == 0x56 {
      if n.value > r.Len() - 1 { return Failed; }
      r.Skip(1);
      var fs := FlagsFrom(r, n.value);
      return Got(BoolArray(fs));
    }
    if c == 0x41 || c == 0x42 {
      r.Skip(1);
      return Got(BoolArray(seq(n.value, _ => c == 0x41)));
    }
    var num, vary := NumCode(c), VarCode(c);
    if num.Some? {
      g := NumArrayFrom(r, n.value, num.value.0, num.value.1);
    } else if vary.Some? {
      g := VarArrayFrom(r, n.value, vary.value.0, vary.value.1);
    } else {
      return Failed;
    }
  }

  // ---- the recursive readers ---------------------------------------------------------

  method StringFrom(r: Buffer) returns (g: Got<Value>)
    requires r.Valid()
    modifies r`i
    ensures r.Valid() && Agrees(g, ReadString(r.b, old(r.i)), r.i)
  {
    hide ReadVar;
    g := VarFrom(r);
    if g.Got? && g.value.vk == Binary { return Failed; }
  }

  method AnyFrom(r: Buffer) returns (g: Got<Value>)
    requires r.Valid()
    modifies r`i
    ensures r.Valid() && Agrees(g, ReadAny(r.b, old(r.i)), r.i)
    decreases r.Len(), 2
  {
    hide ReadComposite, ReadBool, ReadNum, ReadVar, ReadArray, ReadList, ReadMap;
    if r.Len() == 0 { return Failed; }
    var c := r.b[r.i];
    if c == 0x40 {
      r.Skip(1);
      return Got(Null);
    } else if c == 0x00 {
      g := CompositeFrom(r);
    } else if c == 0x41 || c == 0x42 || c == 0x56 {
      g := BoolFrom(r);
    } else if NumCode(c).Some? {
      g := NumFrom(r);
    } else if VarCode(c).Some? {
      g := VarFrom(r);
    } else if c == 0xe0 || c == 0xf0 {
      g := ArrayFrom(r);
    } else if c == 0x45 || c == 0xc0 || c == 0xd0 {
      g := ListFrom(r);
    } else if c == 0xc1 || c == 0xd1 {
      g := MapFrom(r, AnyKey);
    } else {
      return Failed;
    }
  }

  /** list.Unmarshal: a header, then that many values. */
  method ListFrom(r: Buffer) returns (g: Got<Value>)
    requires r.Valid()
    modifies r`i
    ensures r.Valid() && Agrees(g, ReadList(r.b, old(r.i)), r.i)
    decreases r.Len(), 1
  {
    hide ReadListHeader, ReadItems;
    var n := ListHeaderFrom(r);
    if !n.Got? || n.value > r.Len() { return Failed; }
    var vs := ItemsFrom(r, n.value);
    match vs {
      case Got(items) => return Got(List(items));
      case Failed => return Failed;
      case Panicked => return Panicked;
    }
  }

  lemma {:induction false} ItemsMore(b: bytes, i: nat, n: nat)
    requires n > 0
    ensures var v := ReadAny(b, i);
            ReadItems(b, i, n) == match v
              case Ok(x, j) => Prepend(x, ReadItems(b, j, n - 1))
              case Err => Err
              case Panic => Panic
  {
    hide ReadAny;
  }

  lemma {:induction false} ItemsNone(b: bytes, i: nat)
    ensures ReadItems(b, i, 0) == Ok([], i)
  {
  }

  method ItemsFrom(r: Buffer, n: nat) returns (g: Got<seq<Value>>)
    requires r.Valid()
    modifies r`i
    ensures r.Valid() && Agrees(g, ReadItems(r.b, old(r.i), n), r.i)
    decreases r.Len(), 4
  {
    hide ReadAny, ReadItems, Extends;
    ghost var whole := ReadItems(r.b, r.i, n);
    ExtendsStart(whole);
    var acc: seq<Value> := [];
    var t := 0;
    while t < n
      invariant r.Valid() && 0 <= t <= n && old(r.i) <= r.i
      invariant Extends(whole, acc, ReadItems(r.b, r.i, n - t))
    {
      ghost var rest := ReadItems(r.b, r.i, n - t);
      ItemsMore(r.b, r.i, n - t);
      var v := AnyFrom(r);
      match v {
        case Got(x) =>
          ExtendsStep(whole, acc, x, ReadItems(r.b, r.i, n - t - 1));
          acc := acc + [x];
        case Failed => ExtendsFail(whole, acc, rest); return Failed;
        case Panicked => ExtendsFail(whole, acc, rest); return Panicked;
      }
      t := t + 1;
    }
    ItemsNone(r.b, r.i);
    ExtendsEnd(whole, acc, r.i);
    return Got(acc);
  }

  /** The map readers: a header, then pairs put into the map one by one. */
  method MapFrom(r: Buffer, mode: KeyMode) returns (g: Got<Value>)
    requires r.Valid()
    modifies r`i
    ensures r.Valid() && Agrees(g, ReadMap(r.b, old(r.i), mode), r.i)
    decreases r.Len(), 1
  {
    hide ReadHeader, ReadEntries;
    var n := HeaderFrom(r, 0xc1, 0xd1);
    if !n.Got? || n.value > r.Len() { return Failed; }
    var es := EntriesFrom(r, n.value, mode);
    match es {
      case Got(entries) => return Got(Map(entries));
      case Failed => return Failed;
      case Panicked => return Panicked;
    }
  }

  method KeyFrom(r: Buffer, mode: KeyMode) returns (g: Got<Value>)
    requires r.Valid()
    modifies r`i
    ensures r.Valid() && Agrees(g, ReadKey(r.b, old(r.i), mode), r.i)
    decreases r.Len(), 3
  {
    hide ReadAny, ReadString;
    if mode.StringKey? { g := StringFrom(r); } else { g := AnyFrom(r); }
  }

  function ReadKey(b: bytes, i: nat, mode: KeyMode): (g: Result<Value>)
    ensures g.Ok? ==> i < g.next <= |b|
  {
    if mode.StringKey? then ReadString(b, i) else ReadAny(b, i)
  }

  lemma {:induction false} EntriesMore(b: bytes, i: nat, count: nat, mode: KeyMode, acc: seq<Entry>)
    requires count > 0
    ensures ReadEntries(b, i, count, mode, acc) ==
            match ReadKey(b, i, mode)
            case Err => Err
            case Panic => Panic
            case Ok(k, j) =>
              match ReadAny(b, j)
              case Err => Err
              case Panic => Panic
              case Ok(x, m) =>
                match KeyOutcome(mode, k)
                case Err => Err
                case Panic => Panic
                case Ok(_, _) =>
                  ReadEntries(b, m, if count == 1 then 0 else count - 2, mode, Insert(acc, k, x))
  {
    hide ReadAny, ReadString, Insert, KeyOutcome;
  }

  lemma {:induction false} EntriesNone(b: bytes, i: nat, mode: KeyMode, acc: seq<Entry>)
    ensures ReadEntries(b, i, 0, mode, acc) == Ok(acc, i)
  {
  }

  method EntriesFrom(r: Buffer, n: nat, mode: KeyMode) returns (g: Got<seq<Entry>>)
    requires r.Valid()
    modifies r`i
    ensures r.Valid() && Agrees(g, ReadEntries(r.b, old(r.i), n, mode, []), r.i)
    decreases r.Len(), 4
  {
    hide ReadAny, ReadKey, ReadEntries, Insert, KeyOutcome;
    ghost var whole := ReadEntries(r.b, r.i, n, mode, []);
    var acc: seq<Entry> := [];
    var count := n;
    while count > 0
      invariant r.Valid() && old(r.i) <= r.i && whole == ReadEntries(r.b, r.i, count, mode, acc)
      decreases count
    {
      EntriesMore(r.b, r.i, count, mode, acc);
      var k := KeyFrom(r, mode);
      if !k.Got? { return if k.Failed? then Failed else Panicked; }
      var x := AnyFrom(r);
      if !x.Got? { return if x.Failed? then Failed else Panicked; }
      var outcome := KeyOutcome(mode, k.value);
      if !outcome.Ok? { return if outcome.Err? then Failed else Panicked; }
      acc := Insert(acc, k.value, x.value);
      count := if count == 1 then 0 else count - 2;
    }
    EntriesNone(r.b, r.i, mode, acc);
    return Got(acc);
  }

  method DescribedFrom(r: Buffer) returns (g: Got<Value>)
    requires r.Valid() && r.Len() > 0
    modifies r`i
    ensures r.Valid() && Agrees(g, ReadDescribed(r.b, old(r.i)), r.i)
    decreases r.Len(), 0
  {
    hide ReadAny;
    r.Skip(1);
    var d := AnyFrom(r);
    if !d.Got? { return d; }
    var x := AnyFrom(r);
    if !x.Got? { return x; }
    return Got(Described(d.value, x.value));
  }

  /** readComposite: what the descriptor announces, or any described value. */
  method CompositeFrom(r: Buffer) returns (g: Got<Value>)
    requires r.Valid() && r.Len() > 0 && r.b[r.i] == 0x00
    modifies r`i
    ensures r.Valid() && Agrees(g, ReadComposite(r.b, old(r.i)), r.i)
    decreases r.Len(), 1
  {
    hide UnmarshalComposite, ReadDescribed, PeekDescriptor;
    var d := PeekDescriptor(r.b, r.i);
    if d.None? { return Failed; }
    if d.value < 256 && Nested(d.value) {
      g := UnmarshalCompositeFrom(r, d.value);
    } else if Refused(d.value) {
      return Failed;
    } else {
      g := DescribedFrom(r);
    }
  }

  /** UnmarshalComposite: descriptor, list header, then the fields in turn. */
  method UnmarshalCompositeFrom(r: Buffer, code: byte) returns (g: Got<Value>)
    requires r.Valid()
    modifies r`i
    ensures r.Valid() && Agrees(g, UnmarshalComposite(r.b, old(r.i), code), r.i)
    decreases r.Len(), 0
  {
    hide ReadNum, ReadListHeader, ReadFields, Schema;
    if r.Len() == 0 || r.b[r.i] != 0x00 { return Failed; }
    r.Skip(1);
    var d := NumFrom(r);
    if !d.Got? || d.value.k != Ulong { return Failed; }
    var n := ListHeaderFrom(r);
    if !n.Got? || d.value.n % 256 != code || n.value > |Schema(code)| { return Failed; }
    var fs := FieldsFrom(r, Schema(code), n.value);
    match fs {
      case Got(fields) => return Got(Composite(code, fields));
      case Failed => return Failed;
      case Panicked => return Panicked;
    }
  }

  /** What a field that is not there, or null, stands for. */
  predicate Absent(b: bytes, i: nat, k: nat, n: nat) {
    k >= n || (i < |b| && b[i] == 0x40)
  }

  lemma {:induction false} FieldsMore(b: bytes, i: nat, schema: seq<Field>, k: nat, n: nat)
    requires k < |schema|
    ensures ReadFields(b, i, schema, k, n) ==
            if Absent(b, i, k, n) then
              match schema[k].onNull
              case Required => Err
              case Default(v) => Prepend(v, ReadFields(b, if k >= n then i else i + 1, schema, k + 1, n))
            else
              match ReadField(b, i, schema[k].kind)
              case Err => Err
              case Panic => Panic
              case Ok(v, j) => Prepend(v, ReadFields(b, j, schema, k + 1, n))
  {
    hide ReadField;
  }

  lemma {:induction false} FieldsNone(b: bytes, i: nat, schema: seq<Field>, n: nat)
    ensures ReadFields(b, i, schema, |schema|, n) == Ok([], i)
  {
  }

  method FieldsFrom(r: Buffer, schema: seq<Field>, n: nat) returns (g: Got<seq<Value>>)
    requires r.Valid()
    modifies r`i
    ensures r.Valid() && Agrees(g, ReadFields(r.b, old(r.i), schema, 0, n), r.i)
    decreases r.Len(), 4
  {
    hide ReadField, ReadFields, Extends;
    ghost var whole := ReadFields(r.b, r.i, schema, 0, n);
    ExtendsStart(whole);
    var acc: seq<Value> := [];
    var k := 0;
    while k < |schema|
      invariant r.Valid() && 0 <= k <= |schema| && old(r.i) <= r.i
      invariant Extends(whole, acc, ReadFields(r.b, r.i, schema, k, n))
    {
      ghost var rest := ReadFields(r.b, r.i, schema, k, n);
      FieldsMore(r.b, r.i, schema, k, n);
      if Absent(r.b, r.i, k, n) {
        if schema[k].onNull.Required? {
          ExtendsFail(whole, acc, rest);
          return Failed;
        }
        if k < n { r.Skip(1); }
        ExtendsStep(whole, acc, schema[k].onNull.v, ReadFields(r.b, r.i, schema, k + 1, n));
        acc := acc + [schema[k].onNull.v];
      } else {
        var v := FieldFrom(r, schema[k].kind);
        match v {
          case Got(x) =>
            ExtendsStep(whole, acc, x, ReadFields(r.b, r.i, schema, k + 1, n));
            acc := acc + [x];
          case Failed => ExtendsFail(whole, acc, rest); return Failed;
          case Panicked => ExtendsFail(whole, acc, rest); return Panicked;
        }
      }
      k := k + 1;
    }
    FieldsNone(r.b, r.i, schema, n);
    ExtendsEnd(whole, acc, r.i);
    return Got(acc);
  }

  method NumOfFrom(r: Buffer, k: NumKind) returns (g: Got<Value>)
    requires r.Valid()
    modifies r`i
    ensures r.Valid() && Agrees(g, ReadNumOf(r.b, old(r.i), k), r.i)
  {
    hide ReadNum;
    g := NumFrom(r);
    if g.Got? && g.value.k != k { return Failed; }
  }

  method SymbolsFrom(r: Buffer) returns (g: Got<Value>)
    requires r.Valid()
    modifies r`i
    ensures r.Valid() && Agrees(g, ReadField(r.b, old(r.i), KSymbols), r.i)
  {
    hide ReadHeader, ReadVarArray, ReadString;
    if r.Len() > 0 && (r.b[r.i] == 0xa3 || r.b[r.i] == 0xb3) {
      var v := StringFrom(r);
      if !v.Got? { return Failed; }
      return Got(VarArray(Symbol, [v.value.s]));
    }
    var n := HeaderFrom(r, 0xe0, 0xf0);
    if !n.Got? || r.Len() == 0 { return Failed; }
    var code := VarCode(r.b[r.i]);
    if code.None? || code.value.0 != Symbol { return Failed; }
    g := VarArrayFrom(r, n.value, Symbol, code.value.1);
  }

  /** Unmarshal by the Go type of the target. */
  method FieldFrom(r: Buffer, kind: Kind) returns (g: Got<Value>)
    requires r.Valid()
    modifies r`i
    ensures r.Valid() && Agrees(g, ReadField(r.b, old(r.i), kind), r.i)
    decreases r.Len(), 3
  {
    hide ReadNum, ReadNumOf, ReadBool, ReadVar, ReadString, ReadAny, ReadMap, UnmarshalComposite, PeekMessageType,
         ReadHeader, ReadVarArray;
    match kind {
      case KUint => g := NumOfFrom(r, Uint);
      case KUlong => g := NumOfFrom(r, Ulong);
      case KUshort => g := NumOfFrom(r, Ushort);
      case KUbyte => g := NumOfFrom(r, Ubyte);
      case KTime => g := NumOfFrom(r, Timestamp);
      case KMillis =>
        g := NumFrom(r);
        if g.Got? {
          var k := g.value.k;
          if !(k.Uint? || k.Ulong? || k.Ubyte? || k.Ushort?) { return Failed; }
          return Got(Num(Uint, g.value.n));
        }
      case KBool => g := BoolFrom(r);
      case KBinary =>
        g := VarFrom(r);
        if g.Got? && g.value.vk != Binary { return Failed; }
      case KString => g := StringFrom(r);
      case KAny => g := AnyFrom(r);
      case KStringMap => g := MapFrom(r, StringKey);
      case KAnnotations => g := MapFrom(r, AnnotationKey);
      case KError => g := UnmarshalCompositeFrom(r, ERROR);
      case KState =>
        var code := PeekMessageType(r.b, r.i);
        if !code.Ok? || !IsState(code.val) { return Failed; }
        g := UnmarshalCompositeFrom(r, code.val);
      case KSymbols => g := SymbolsFrom(r);
    }
  }

  // ---- messages ----------------------------------------------------------------------

  method BodyFrom(r: Buffer, code: byte) returns (g: Got<Value>)
    requires r.Valid()
    modifies r`i
    ensures r.Valid() && Agrees(g, ReadBody(r.b, old(r.i), code), r.i)
  {
    hide ReadField, ReadList, ReadAny;
    if r.Len() > 0 && r.b[r.i] == 0x40 {
      r.Skip(1);
      return Got(Null);
    }
    if code == APPLICATION_PROPERTIES { g := FieldFrom(r, KStringMap); }
    else if code == DATA { g := FieldFrom(r, KBinary); }
    else if code == SEQUENCE { g := ListFrom(r); }
    else if code == VALUE { g := AnyFrom(r); }
    else { g := FieldFrom(r, KAnnotations); }
  }

  method SectionFrom(r: Buffer) returns (g: Got<Section>)
    requires r.Valid()
    modifies r`i
    ensures r.Valid() && Agrees(g, ReadSection(r.b, old(r.i)), r.i)
  {
    hide UnmarshalComposite, ReadBody, PeekMessageType;
    var code := PeekMessageType(r.b, r.i);
    if !code.Ok? || !IsSection(code.val) { return Failed; }
    var v;
    if code.val == HEADER || code.val == PROPERTIES {
      v := UnmarshalCompositeFrom(r, code.val);
    } else {
      r.Skip(code.next - r.i);
      v := BodyFrom(r, code.val);
    }
    match v {
      case Got(x) => return Got(Section(code.val, x));
      case Failed => return Failed;
      case Panicked => return Panicked;
    }
  }

  /** Message.Unmarshal: section after section until the buffer is used up. */
  method MessageFrom(r: Buffer) returns (g: Got<Message>)
    requires r.Valid()
    modifies r`i
    ensures r.Valid() && Agrees(g, ReadMessage(r.b, old(r.i), EMPTY), r.i)
  {
    hide ReadSection, Apply;
    var m := EMPTY;
    while r.Len() > 0
      invariant r.Valid() && ReadMessage(r.b, r.i, m) == ReadMessage(r.b, old(r.i), EMPTY)
      decreases r.Len()
    {
      var s := SectionFrom(r);
      match s {
        case Got(x) => m := Apply(m, x);
        case Failed => return Failed;
        case Panicked => return Panicked;
      }
    }
    return Got(m);
  }
}
