/**
 The performatives on the wire, with the numbers and positions of the AMQP Transport part: whatever
 way a peer writes one, it is parsed as that performative, and what is written here is one of them.
 */
module Performatives {
  import opened Words
  import opened Values
  import opened Decoder
  import opened RoundTrip
  import opened Frames
  import opened Spelling
  import opened Conformance
  import opened Conforming

  // ---- fields ------------------------------------------------------------------------

  function FieldAt(fields: seq<Form>, k: nat): (t: Form) {
    if k < |fields| then fields[k] else NullF
  }

  predicate GivesNum(t: Form, k: NumKind, n: int) {
    t.NumF? && FixedType(t.code) == Some(k) && FromBe(t.data) == n
  }

  predicate GivesUint(t: Form, n: uint32) { GivesNum(t, Uint, n) }

  predicate GivesOpt(t: Form, k: NumKind, o: Option<int>) {
    match o case None => t == NullF case Some(n) => GivesNum(t, k, n)
  }

  predicate GivesBool(t: Form, b: bool) {
    if b then t == TrueF || t == BoolF(true) else t == FalseF || t == BoolF(false)
  }

  predicate GivesFlag(t: Form, b: bool) { GivesBool(t, b) || (t == NullF && !b) }

  predicate GivesBinary(t: Form, o: Option<bytes>) {
    match o case None => t == NullF case Some(s) => t.VarF? && IsBinary(t.vcode) && t.s == s
  }

  predicate GivesSymbols(t: Form, ss: seq<bytes>) {
    || (t == NullF && ss == [])
    || (t.VarF? && IsSymbol(t.vcode) && ss == [t.s])
    || (t.VarArrayF? && IsSymbol(t.vcode) && ss == t.ss)
  }

  predicate GivesMap(t: Form, v: Value) {
    if v == Null then t == NullF else t.MapF? && StringKeys(t.pairs) && Meaning(t) == v
  }

  predicate GivesState(t: Form, v: Value) {
    if v == Null then t == NullF else t.CompositeF? && 0x23 <= t.ctype <= 0x27 && Meaning(t) == v
  }

  predicate GivesError(t: Form, v: Value) {
    if v == Null then t == NullF else t.CompositeF? && t.ctype == 0x1d && Meaning(t) == v
  }

  // ---- performatives -----------------------------------------------------------------

  function Number(b: Body): (code: byte) {
    match b
    case BeginBody(_) => 0x11
    case FlowBody(_) => 0x13
    case TransferBody(_) => 0x14
    case DispositionBody(_) => 0x15
    case DetachBody(_, _, _) => 0x16
    case EndBody(_) => 0x17
    case CloseBody(_) => 0x18
  }

  function FieldCount(b: Body): (n: nat) {
    match b
    case BeginBody(_) => 8 case FlowBody(_) => 11 case TransferBody(_) => 11 case DispositionBody(_) => 6
    case DetachBody(_, _, _) => 3 case EndBody(_) => 1 case CloseBody(_) => 1
  }

  /** The fields give the performative, each in its place; trailing ones may be left off. */
  predicate Gives(fields: seq<Form>, b: Body) {
    && |fields| <= FieldCount(b)
    && match b
       case BeginBody(x) => GivesBegin(fields, x)
       case FlowBody(x) => GivesFlow(fields, x)
       case TransferBody(x) => GivesTransfer(fields, x)
       case DispositionBody(x) => GivesDisposition(fields, x)
       case DetachBody(handle, closed, error) =>
         GivesUint(FieldAt(fields, 0), handle) && GivesFlag(FieldAt(fields, 1), closed) && GivesError(FieldAt(fields, 2), error)
       case EndBody(error) => GivesError(FieldAt(fields, 0), error)
       case CloseBody(error) => GivesError(FieldAt(fields, 0), error)
  }

  predicate GivesBegin(fields: seq<Form>, x: Begin) {
    && GivesOpt(FieldAt(fields, 0), Ushort, x.remoteChannel)
    && GivesUint(FieldAt(fields, 1), x.nextOutgoingId)
    && GivesUint(FieldAt(fields, 2), x.incomingWindow)
    && GivesUint(FieldAt(fields, 3), x.outgoingWindow)
    && (GivesUint(FieldAt(fields, 4), x.handleMax) || (FieldAt(fields, 4) == NullF && x.handleMax == 4294967295))
    && GivesSymbols(FieldAt(fields, 5), x.offered)
    && GivesSymbols(FieldAt(fields, 6), x.desired)
    && GivesMap(FieldAt(fields, 7), x.properties)
  }

  predicate GivesFlow(fields: seq<Form>, x: Flow) {
    && GivesOpt(FieldAt(fields, 0), Uint, x.nextIncomingId)
    && GivesUint(FieldAt(fields, 1), x.incomingWindow)
    && GivesUint(FieldAt(fields, 2), x.nextOutgoingId)
    && GivesUint(FieldAt(fields, 3), x.outgoingWindow)
    && GivesOpt(FieldAt(fields, 4), Uint, x.handle)
    && GivesOpt(FieldAt(fields, 5), Uint, x.deliveryCount)
    && GivesOpt(FieldAt(fields, 6), Uint, x.linkCredit)
    && GivesOpt(FieldAt(fields, 7), Uint, x.available)
    && GivesFlag(FieldAt(fields, 8), x.drain)
    && GivesFlag(FieldAt(fields, 9), x.echo)
    && GivesMap(FieldAt(fields, 10), x.properties)
  }

  predicate GivesTransfer(fields: seq<Form>, x: Transfer) {
    && GivesUint(FieldAt(fields, 0), x.handle)
    && GivesOpt(FieldAt(fields, 1), Uint, x.deliveryId)
    && GivesBinary(FieldAt(fields, 2), x.tag)
    && GivesOpt(FieldAt(fields, 3), Uint, x.format)
    && GivesFlag(FieldAt(fields, 4), x.settled)
    && GivesFlag(FieldAt(fields, 5), x.more)
    && GivesOpt(FieldAt(fields, 6), Ubyte, x.rcvMode)
    && GivesState(FieldAt(fields, 7), x.state)
    && GivesFlag(FieldAt(fields, 8), x.resume)
    && GivesFlag(FieldAt(fields, 9), x.aborted)
    && GivesFlag(FieldAt(fields, 10), x.batchable)
  }

  predicate GivesDisposition(fields: seq<Form>, x: Disposition) {
    && GivesBool(FieldAt(fields, 0), x.role)
    && GivesUint(FieldAt(fields, 1), x.first)
    && GivesOpt(FieldAt(fields, 2), Uint, x.last)
    && GivesFlag(FieldAt(fields, 3), x.settled)
    && GivesState(FieldAt(fields, 4), x.state)
    && GivesFlag(FieldAt(fields, 5), x.batchable)
  }

  /** A body: descriptor, field list, and behind a transfer its payload. */
  function Written(b: Body, list: ListForm, fields: seq<Form>): (s: bytes) {
    [0x00, 0x53, Number(b)] + FieldList(list, |fields|, ItemBytes(fields, 0))
    + (if b.TransferBody? then b.transfer.payload else [])
  }

  ghost predicate ProperFields(list: ListForm, fields: seq<Form>) {
    (forall x | x in fields :: Proper(x)) && FieldListFits(list, |fields|, ItemBytes(fields, 0))
  }

  // ---- one field at a time -----------------------------------------------------------

  /** What the reader puts in a position of the table. */
  function Put(fields: seq<Form>, table: seq<Field>, k: nat): (v: Value)
    requires k < |table|
  {
    var t := FieldAt(fields, k);
    if t != NullF then FieldMeaning(table[k].kind, t)
    else match table[k].onNull case Default(d) => d case Required => Null
  }

  lemma {:induction false} FilledAt(fields: seq<Form>, table: seq<Field>, k: nat, t: nat)
    requires |fields| <= |table| && k <= t < |table|
    ensures Filled(fields, table, k)[t - k] == Put(fields, table, t)
    decreases |table| - k
  {
    hide FieldMeaning;
    if k < t { FilledAt(fields, table, k + 1, t); }
  }

  lemma {:induction false} PutNum(kind: Kind, t: Form, k: NumKind, n: int)
    requires GivesNum(t, k, n) && Proper(t)
    requires (kind == KUint && k == Uint) || (kind == KUbyte && k == Ubyte) || (kind == KUshort && k == Ushort)
    ensures t != NullF && FitsF(kind, t) && FieldMeaning(kind, t) == Num(k, n)
  {
    hide FromBe;
  }

  lemma {:induction false} PutOpt(kind: Kind, t: Form, k: NumKind, o: Option<int>)
    requires GivesOpt(t, k, o) && Proper(t)
    requires (kind == KUint && k == Uint) || (kind == KUbyte && k == Ubyte) || (kind == KUshort && k == Ushort)
    ensures (t == NullF) == o.None? && (o.Some? ==> FitsF(kind, t) && FieldMeaning(kind, t) == Num(k, o.value))
  {
    hide FieldMeaning, FitsF;
    if o.Some? { PutNum(kind, t, k, o.value); }
  }

  lemma {:induction false} PutFlag(t: Form, b: bool)
    requires GivesFlag(t, b)
    ensures t != NullF ==> FitsF(KBool, t) && FieldMeaning(KBool, t) == Bool(b)
    ensures t == NullF ==> !b
  {
  }

  lemma {:induction false} PutComposite(kind: Kind, t: Form, v: Value)
    requires (kind == KState && GivesState(t, v)) || (kind == KError && GivesError(t, v)) || (kind == KStringMap && GivesMap(t, v))
    ensures if t == NullF then v == Null else FitsF(kind, t) && FieldMeaning(kind, t) == v
  {
    hide Meaning, StringKeys;
  }

  lemma {:induction false} PutSymbols(t: Form, ss: seq<bytes>)
    requires GivesSymbols(t, ss)
    ensures if t == NullF then ss == [] else FitsF(KSymbols, t) && FieldMeaning(KSymbols, t) == VarArray(Symbol, ss)
  {
  }

  /** The field at a position is absent where it may be, or of its type. */
  predicate Right(fields: seq<Form>, table: seq<Field>, k: nat)
    requires k < |table|
  {
    var t := FieldAt(fields, k);
    if t == NullF then !table[k].onNull.Required? else FitsF(table[k].kind, t)
  }

  lemma {:induction false} AllRight(fields: seq<Form>, table: seq<Field>)
    requires |fields| <= |table| && forall k | 0 <= k < |table| :: Right(fields, table, k)
    ensures Typed(fields, table) && Complete(fields, table)
  {
    hide FitsF;
    forall k | 0 <= k < |fields| ensures fields[k] == NullF || FitsF(table[k].kind, fields[k]) {
      assert Right(fields, table, k);
    }
    forall k | 0 <= k < |table| && table[k].onNull.Required? ensures k < |fields| && fields[k] != NullF {
      assert Right(fields, table, k);
    }
  }

  predicate Slot(fields: seq<Form>, table: seq<Field>, k: nat, v: Value) {
    k < |table| && Right(fields, table, k) && Put(fields, table, k) == v
  }

  /** Every field the reader finds, in order. */
  ghost predicate Placed(fields: seq<Form>, table: seq<Field>, vs: seq<Value>) {
    && |fields| <= |table| == |vs|
    && forall k | 0 <= k < |table| :: Slot(fields, table, k, vs[k])
  }

  lemma {:induction false} PlacedFilled(fields: seq<Form>, table: seq<Field>, vs: seq<Value>)
    requires Placed(fields, table, vs)
    ensures Typed(fields, table) && Complete(fields, table) && Filled(fields, table, 0) == vs
  {
    hide FieldMeaning, FitsF, Filled, Put, Right;
    forall k | 0 <= k < |table| ensures Right(fields, table, k) && Put(fields, table, k) == vs[k] {
      assert Slot(fields, table, k, vs[k]);
    }
    AllRight(fields, table);
    forall k | 0 <= k < |table| ensures Filled(fields, table, 0)[k] == vs[k] {
      FilledAt(fields, table, 0, k);
    }
  }

  lemma {:induction false} FieldProper(fields: seq<Form>, k: nat)
    requires forall x | x in fields :: Proper(x)
    ensures Proper(FieldAt(fields, k))
  {
  }

  // ---- one performative at a time ----------------------------------------------------

  function BeginValues(fields: seq<Form>, x: Begin): (vs: seq<Value>)
    ensures |vs| == 8
  {
    [OptNum(Ushort, x.remoteChannel), Num(Uint, x.nextOutgoingId), Num(Uint, x.incomingWindow),
     Num(Uint, x.outgoingWindow), Num(Uint, x.handleMax),
     if FieldAt(fields, 5) == NullF then Null else VarArray(Symbol, x.offered),
     if FieldAt(fields, 6) == NullF then Null else VarArray(Symbol, x.desired), x.properties]
  }

  function FlowValues(x: Flow): (vs: seq<Value>)
    ensures |vs| == 11
  {
    [OptNum(Uint, x.nextIncomingId), Num(Uint, x.incomingWindow), Num(Uint, x.nextOutgoingId),
     Num(Uint, x.outgoingWindow), OptNum(Uint, x.handle), OptNum(Uint, x.deliveryCount),
     OptNum(Uint, x.linkCredit), OptNum(Uint, x.available), Bool(x.drain), Bool(x.echo), x.properties]
  }

  function TransferValues(x: Transfer): (vs: seq<Value>)
    ensures |vs| == 11
  {
    [Num(Uint, x.handle), OptNum(Uint, x.deliveryId), if x.tag.None? then Null else Var(Binary, x.tag.value),
     OptNum(Uint, x.format), Bool(x.settled), Bool(x.more), OptNum(Ubyte, x.rcvMode), x.state,
     Bool(x.resume), Bool(x.aborted), Bool(x.batchable)]
  }

  function DispositionValues(x: Disposition): (vs: seq<Value>)
    ensures |vs| == 6
  {
    [Bool(x.role), Num(Uint, x.first), OptNum(Uint, x.last), Bool(x.settled), x.state, Bool(x.batchable)]
  }

  function ClosingValues(b: Body): (vs: seq<Value>)
    requires b.DetachBody? || b.EndBody? || b.CloseBody?
  {
    if b.DetachBody? then [Num(Uint, b.handle), Bool(b.closed), b.error] else [b.error]
  }

  lemma {:induction false} NumHere(fields: seq<Form>, table: seq<Field>, k: nat, n: uint32)
    requires k < |table| && table[k].kind == KUint && GivesUint(FieldAt(fields, k), n) && Proper(FieldAt(fields, k))
    ensures Slot(fields, table, k, Num(Uint, n))
  {
    hide FieldMeaning, FitsF, Proper, GivesNum, FieldAt;
    PutNum(KUint, FieldAt(fields, k), Uint, n);
  }

  lemma {:induction false} OptHere(fields: seq<Form>, table: seq<Field>, k: nat, nk: NumKind, o: Option<int>)
    requires k < |table| && GivesOpt(FieldAt(fields, k), nk, o) && Proper(FieldAt(fields, k))
    requires table[k] == Field(if nk == Ubyte then KUbyte else if nk == Ushort then KUshort else KUint, Default(Null))
    requires nk == Ubyte || nk == Ushort || nk == Uint
    ensures Slot(fields, table, k, OptNum(nk, o))
  {
    hide FieldMeaning, FitsF, Proper, GivesOpt, FieldAt;
    PutOpt(table[k].kind, FieldAt(fields, k), nk, o);
  }

  lemma {:induction false} FlagHere(fields: seq<Form>, table: seq<Field>, k: nat, b: bool)
    requires k < |table| && GivesFlag(FieldAt(fields, k), b) && table[k] == Field(KBool, Default(Bool(false)))
    ensures Slot(fields, table, k, Bool(b))
  {
    hide FieldMeaning, FitsF, GivesFlag, FieldAt;
    PutFlag(FieldAt(fields, k), b);
  }

  lemma {:induction false} CompositeHere(fields: seq<Form>, table: seq<Field>, k: nat, v: Value)
    requires k < |table| && table[k].onNull == Default(Null)
    requires var kind, t := table[k].kind, FieldAt(fields, k);
             (kind == KState && GivesState(t, v)) || (kind == KError && GivesError(t, v)) || (kind == KStringMap && GivesMap(t, v))
    ensures Slot(fields, table, k, v)
  {
    hide FieldMeaning, FitsF, FieldAt, GivesState, GivesError, GivesMap;
    PutComposite(table[k].kind, FieldAt(fields, k), v);
  }

  lemma {:induction false} BeginPlaced(fields: seq<Form>, x: Begin)
    requires |fields| <= 8 && GivesBegin(fields, x) && forall t | t in fields :: Proper(t)
    ensures Placed(fields, Standard(0x11), BeginValues(fields, x))
  {
    hide FieldMeaning, FitsF, FieldAt, GivesOpt, GivesSymbols, GivesMap, GivesNum, Proper, Slot;
    forall k: nat ensures Proper(FieldAt(fields, k)) { FieldProper(fields, k); }
    var table := Standard(0x11);
    OptHere(fields, table, 0, Ushort, x.remoteChannel);
    NumHere(fields, table, 1, x.nextOutgoingId);
    NumHere(fields, table, 2, x.incomingWindow);
    NumHere(fields, table, 3, x.outgoingWindow);
    HandleMaxHere(fields, table, x.handleMax);
    SymbolsHere(fields, table, 5, x.offered);
    SymbolsHere(fields, table, 6, x.desired);
    CompositeHere(fields, table, 7, x.properties);
  }

  lemma {:induction false} HandleMaxHere(fields: seq<Form>, table: seq<Field>, n: uint32)
    requires |table| > 4 && table[4] == Field(KUint, Default(Num(Uint, 4294967295))) && Proper(FieldAt(fields, 4))
    requires GivesUint(FieldAt(fields, 4), n) || (FieldAt(fields, 4) == NullF && n == 4294967295)
    ensures Slot(fields, table, 4, Num(Uint, n))
  {
    if FieldAt(fields, 4) != NullF { NumHere(fields, table, 4, n); }
  }

  lemma {:induction false} SymbolsHere(fields: seq<Form>, table: seq<Field>, k: nat, ss: seq<bytes>)
    requires k < |table| && table[k] == Field(KSymbols, Default(Null)) && GivesSymbols(FieldAt(fields, k), ss)
    ensures Slot(fields, table, k, if FieldAt(fields, k) == NullF then Null else VarArray(Symbol, ss))
  {
    hide FieldMeaning, FitsF, FieldAt, GivesSymbols;
    PutSymbols(FieldAt(fields, k), ss);
  }

  lemma {:induction false} FlowPlaced(fields: seq<Form>, x: Flow)
    requires |fields| <= 11 && GivesFlow(fields, x) && forall t | t in fields :: Proper(t)
    ensures Placed(fields, Standard(0x13), FlowValues(x))
  {
    hide FieldMeaning, FitsF, FieldAt, GivesOpt, GivesNum, GivesFlag, GivesMap, Proper, Slot;
    forall k: nat ensures Proper(FieldAt(fields, k)) { FieldProper(fields, k); }
    var table := Standard(0x13);
    OptHere(fields, table, 0, Uint, x.nextIncomingId);
    NumHere(fields, table, 1, x.incomingWindow);
    NumHere(fields, table, 2, x.nextOutgoingId);
    NumHere(fields, table, 3, x.outgoingWindow);
    OptHere(fields, table, 4, Uint, x.handle);
    OptHere(fields, table, 5, Uint, x.deliveryCount);
    OptHere(fields, table, 6, Uint, x.linkCredit);
    OptHere(fields, table, 7, Uint, x.available);
    FlagHere(fields, table, 8, x.drain);
    FlagHere(fields, table, 9, x.echo);
    CompositeHere(fields, table, 10, x.properties);
  }

  lemma {:induction false} TransferPlaced(fields: seq<Form>, x: Transfer)
    requires |fields| <= 11 && GivesTransfer(fields, x) && forall t | t in fields :: Proper(t)
    ensures Placed(fields, Standard(0x14), TransferValues(x))
  {
    hide FieldMeaning, FitsF, FieldAt, GivesOpt, GivesNum, GivesFlag, GivesState, GivesBinary, Proper, Slot;
    forall k: nat ensures Proper(FieldAt(fields, k)) { FieldProper(fields, k); }
    var table := Standard(0x14);
    NumHere(fields, table, 0, x.handle);
    OptHere(fields, table, 1, Uint, x.deliveryId);
    BinaryHere(fields, table, 2, x.tag);
    OptHere(fields, table, 3, Uint, x.format);
    FlagHere(fields, table, 4, x.settled);
    FlagHere(fields, table, 5, x.more);
    OptHere(fields, table, 6, Ubyte, x.rcvMode);
    CompositeHere(fields, table, 7, x.state);
    FlagHere(fields, table, 8, x.resume);
    FlagHere(fields, table, 9, x.aborted);
    FlagHere(fields, table, 10, x.batchable);
  }

  lemma {:induction false} PutBinary(t: Form, o: Option<bytes>)
    requires GivesBinary(t, o)
    ensures (t == NullF) == o.None? && (o.Some? ==> FitsF(KBinary, t) && FieldMeaning(KBinary, t) == Var(Binary, o.value))
  {
  }

  lemma {:induction false} BinaryHere(fields: seq<Form>, table: seq<Field>, k: nat, o: Option<bytes>)
    requires k < |table| && table[k] == Field(KBinary, Default(Null)) && GivesBinary(FieldAt(fields, k), o)
    ensures Slot(fields, table, k, if o.None? then Null else Var(Binary, o.value))
  {
    hide FieldAt, FieldMeaning, FitsF, GivesBinary;
    PutBinary(FieldAt(fields, k), o);
  }

  lemma {:induction false} DispositionPlaced(fields: seq<Form>, x: Disposition)
    requires |fields| <= 6 && GivesDisposition(fields, x) && forall t | t in fields :: Proper(t)
    ensures Placed(fields, Standard(0x15), DispositionValues(x))
  {
    hide FieldMeaning, FitsF, FieldAt, GivesOpt, GivesNum, GivesState, GivesFlag, GivesBool, Proper, Slot;
    forall k: nat ensures Proper(FieldAt(fields, k)) { FieldProper(fields, k); }
    var table := Standard(0x15);
    RoleHere(fields, table, x.role);
    NumHere(fields, table, 1, x.first);
    OptHere(fields, table, 2, Uint, x.last);
    FlagHere(fields, table, 3, x.settled);
    CompositeHere(fields, table, 4, x.state);
    FlagHere(fields, table, 5, x.batchable);
  }

  lemma {:induction false} RoleHere(fields: seq<Form>, table: seq<Field>, b: bool)
    requires |table| > 0 && table[0].kind == KBool && GivesBool(FieldAt(fields, 0), b)
    ensures Slot(fields, table, 0, Bool(b))
  {
    hide FieldAt;
  }

  lemma {:induction false} ClosingPlaced(fields: seq<Form>, b: Body)
    requires (b.DetachBody? || b.EndBody? || b.CloseBody?) && Gives(fields, b) && forall t | t in fields :: Proper(t)
    ensures Placed(fields, Standard(Number(b)), ClosingValues(b))
  {
    hide FieldMeaning, FitsF, FieldAt, GivesNum, GivesFlag, GivesError, Proper, Slot;
    forall k: nat ensures Proper(FieldAt(fields, k)) { FieldProper(fields, k); }
    var table := Standard(Number(b));
    if b.DetachBody? {
      NumHere(fields, table, 0, b.handle);
      FlagHere(fields, table, 1, b.closed);
      CompositeHere(fields, table, 2, b.error);
    } else {
      CompositeHere(fields, table, 0, b.error);
    }
  }

  /** The values found. */
  function ValuesOf(fields: seq<Form>, b: Body): (vs: seq<Value>) {
    match b
    case BeginBody(x) => BeginValues(fields, x)
    case FlowBody(x) => FlowValues(x)
    case TransferBody(x) => TransferValues(x)
    case DispositionBody(x) => DispositionValues(x)
    case _ => ClosingValues(b)
  }

  lemma {:induction false} AllPlaced(fields: seq<Form>, b: Body)
    requires Gives(fields, b) && forall t | t in fields :: Proper(t)
    ensures Placed(fields, Standard(Number(b)), ValuesOf(fields, b))
  {
    hide Placed, Proper, GivesBegin, GivesFlow, GivesTransfer, GivesDisposition, Standard, BeginValues, FlowValues,
      TransferValues, DispositionValues, ClosingValues;
    match b
    case BeginBody(x) => BeginPlaced(fields, x);
    case FlowBody(x) => FlowPlaced(fields, x);
    case TransferBody(x) => TransferPlaced(fields, x);
    case DispositionBody(x) => DispositionPlaced(fields, x);
    case _ => ClosingPlaced(fields, b);
  }

  lemma {:induction false} BeginMade(fields: seq<Form>, x: Begin)
    requires GivesBegin(fields, x)
    ensures FromFields(0x11, BeginValues(fields, x), []) == Some(BeginBody(x))
  {
    NoSymbols(fields, x);
    hide GivesBegin, FieldAt;
    var vs := BeginValues(fields, x);
    assert Symbols(vs[5]) == x.offered && Symbols(vs[6]) == x.desired;
    assert Begin(x.remoteChannel, U32(vs[1]), U32(vs[2]), U32(vs[3]), U32(vs[4]), x.offered, x.desired, vs[7]) == x;
  }

  lemma {:induction false} FlowMade(x: Flow)
    ensures FromFields(0x13, FlowValues(x), []) == Some(FlowBody(x))
  {
    var vs := FlowValues(x);
    assert OptU32(vs[0]) == x.nextIncomingId && OptU32(vs[4]) == x.handle && OptU32(vs[5]) == x.deliveryCount;
    assert OptU32(vs[6]) == x.linkCredit && OptU32(vs[7]) == x.available;
  }

  lemma {:induction false} TransferMade(x: Transfer)
    ensures FromFields(0x14, TransferValues(x), x.payload) == Some(TransferBody(x))
  {
  }

  lemma {:induction false} DispositionMade(x: Disposition)
    ensures FromFields(0x15, DispositionValues(x), []) == Some(DispositionBody(x))
  {
  }

  /** The fields found make the performative. */
  lemma {:induction false} Understood(fields: seq<Form>, b: Body)
    requires Gives(fields, b) && forall t | t in fields :: Proper(t)
    ensures var vs := ValuesOf(fields, b);
            && Placed(fields, Standard(Number(b)), vs) && |vs| == |Schema(Number(b))|
            && FromFields(Number(b), vs, Payload(b)) == Some(b)
  {
    AllPlaced(fields, b);
    TablesAgree(Number(b));
    hide Placed, Proper, GivesBegin, GivesFlow, GivesTransfer, GivesDisposition, BeginValues, FlowValues,
      TransferValues, DispositionValues;
    match b
    case BeginBody(x) => BeginMade(fields, x);
    case FlowBody(x) => FlowMade(x);
    case TransferBody(x) => TransferMade(x);
    case DispositionBody(x) => DispositionMade(x);
    case _ =>
  }

  lemma {:induction false} NoSymbols(fields: seq<Form>, x: Begin)
    requires GivesBegin(fields, x)
    ensures FieldAt(fields, 5) == NullF ==> x.offered == []
    ensures FieldAt(fields, 6) == NullF ==> x.desired == []
  {
    hide GivesOpt, GivesNum, GivesMap, FieldAt;
  }

  /**
   Reading: a body that begins with a performative's number and goes on with its fields, however each
   is written, is parsed as that performative with every field in its place.
   */
  lemma {:induction false} BodySpelled(b: Body, list: ListForm, fields: seq<Form>)
    requires Gives(fields, b) && ProperFields(list, fields)
    ensures ParseBody(Written(b, list, fields)) == Ok(b, |Written(b, list, fields)|)
  {
    hide Placed, Proper, Gives, UnmarshalComposite, FromFields, Standard, Schema, Filled, FieldListFits, FieldList, ItemBytes;
    var bs, code := Written(b, list, fields), Number(b);
    var vs := ValuesOf(fields, b);
    Understood(fields, b);
    PlacedFilled(fields, Standard(code), vs);
    var head := [0x00, 0x53, code] + FieldList(list, |fields|, ItemBytes(fields, 0));
    assert bs == head + Payload(b);
    HeadAt(code, list, fields, Payload(b));
    CompositeSpelled(false, code, list, fields, bs, 0);
    assert bs[|head|..] == Payload(b);
    assert bs[0] == 0x00 && bs[1] == 0x53 && bs[2] == code;
  }

  lemma {:induction false} HeadAt(code: byte, list: ListForm, fields: seq<Form>, rest: bytes)
    ensures var head := [0x00, 0x53, code] + FieldList(list, |fields|, ItemBytes(fields, 0));
            Bytes(CompositeF(false, code, list, fields)) == head && At(head + rest, 0, head)
  {
    hide FieldList, ItemBytes;
  }

  // ---- writing -----------------------------------------------------------------------

  ghost function FieldsOf(b: Body): (fields: seq<Form>)
    requires EncodableBody(b)
  {
    Forms(ToFields(b), 0, SetCount(ToFields(b)))
  }

  ghost function ListOf(b: Body): (list: ListForm) {
    if SetCount(ToFields(b)) == 0 then Empty else Wide
  }

  lemma {:induction false} FieldOf(b: Body, k: nat)
    requires EncodableBody(b) && k < |ToFields(b)|
    ensures Encodable(ToFields(b)[k]) && FieldAt(FieldsOf(b), k) == FormOf(ToFields(b)[k])
  {
    hide FormOf, SetCount, ToFields;
    assert ToFields(b)[k] in ToFields(b);
    if k >= SetCount(ToFields(b)) { assert ToFields(b)[k] == Null; }
  }

  lemma {:induction false} FormNum(k: NumKind, n: int)
    requires Encodable(Num(k, n)) && !Signed(k)
    ensures GivesNum(FormOf(Num(k, n)), k, n)
  {
    hide FixedType, FromBe, Signed;
    NumFormIs(k, n);
    NumIsNum(k, n);
    hide NumForm;
  }

  lemma {:induction false} FormOpt(k: NumKind, o: Option<int>)
    requires Encodable(OptNum(k, o)) && !Signed(k)
    ensures GivesOpt(FormOf(OptNum(k, o)), k, o)
  {
    if o.Some? { FormNum(k, o.value); }
    hide GivesNum;
  }

  lemma {:induction false} FormFlag(b: bool)
    ensures GivesFlag(FormOf(FlagOf(b)), b) && GivesBool(FormOf(Bool(b)), b)
  {
  }

  lemma {:induction false} FormTag(o: Option<bytes>)
    requires o.Some? ==> Encodable(Var(Binary, o.value))
    ensures var v := if o.None? || o.value == [] then Null else Var(Binary, o.value);
            GivesBinary(FormOf(v), if o == Some([]) then None else o)
  {
  }

  lemma {:induction false} FormSymbols(ss: seq<bytes>)
    requires Encodable(SymbolsOf(ss))
    ensures GivesSymbols(FormOf(SymbolsOf(ss)), ss)
  {
    hide TotalLen, ValidUtf8;
  }

  /** A nested value in its place. */
  lemma {:induction false} FormNested(b: Body, k: nat)
    requires FaithfulBody(b) && Sizeable(Composite(Code(b), ToFields(b))) && k < |ToFields(b)|
    ensures Encodable(ToFields(b)[k])
    ensures var v, kind := ToFields(b)[k], Schema(Code(b))[k].kind;
            && (kind == KState ==> GivesState(FormOf(v), Normal(v)))
            && (kind == KError ==> GivesError(FormOf(v), Normal(v)))
            && (kind == KStringMap ==> GivesMap(FormOf(v), Normal(v)))
  {
    hide ToFields, Schema, SetCount, FormOf, Encodable, Normal, Meaning, Proper, FitsF, Fits, Faithful;
    var v, kind := ToFields(b)[k], Schema(Code(b))[k].kind;
    assert v in ToFields(b);
    FieldsEncodable(Code(b), ToFields(b));
    if v != Null {
      FieldConforms(Code(b), ToFields(b), k);
      NestedGives(kind, FormOf(v), v);
    } else {
      NullGives();
    }
  }

  lemma {:induction false} NullGives()
    ensures FormOf(Null) == NullF && Normal(Null) == Null
  {
  }

  lemma {:induction false} NestedGives(kind: Kind, t: Form, v: Value)
    requires FitsF(kind, t) && FieldMeaning(kind, t) == Normal(v) && t != NullF && Proper(t)
    ensures kind == KState ==> GivesState(t, Normal(v))
    ensures kind == KError ==> GivesError(t, Normal(v))
    ensures kind == KStringMap ==> GivesMap(t, Normal(v))
  {
    hide Normal, Standard, Filled, Entries;
    if t.CompositeF? { TypedSize(t.fields, Standard(t.ctype)); }
  }

  // Each field of a performative as it is written.

  lemma {:induction false} UintAt(b: Body, k: nat, n: uint32)
    requires EncodableBody(b) && k < |ToFields(b)| && ToFields(b)[k] == Num(Uint, n)
    ensures GivesUint(FieldAt(FieldsOf(b), k), n)
  {
    hide FormOf, FieldAt, FieldsOf, Encodable, GivesNum, ToFields;
    FieldOf(b, k);
    FormNum(Uint, n);
  }

  lemma {:induction false} OptAt(b: Body, k: nat, nk: NumKind, o: Option<int>)
    requires EncodableBody(b) && k < |ToFields(b)| && ToFields(b)[k] == OptNum(nk, o) && !Signed(nk)
    ensures GivesOpt(FieldAt(FieldsOf(b), k), nk, o)
  {
    hide FormOf, FieldAt, FieldsOf, Encodable, GivesOpt, ToFields, OptNum;
    FieldOf(b, k);
    FormOpt(nk, o);
  }

  lemma {:induction false} FlagAt(b: Body, k: nat, flag: bool)
    requires EncodableBody(b) && k < |ToFields(b)| && ToFields(b)[k] == FlagOf(flag)
    ensures GivesFlag(FieldAt(FieldsOf(b), k), flag)
  {
    hide FormOf, FieldAt, FieldsOf, Encodable, GivesFlag, ToFields, FlagOf;
    FieldOf(b, k);
    FormFlag(flag);
  }

  lemma {:induction false} NestedHere(b: Body, k: nat)
    requires FaithfulBody(b) && Sizeable(Composite(Code(b), ToFields(b))) && k < |ToFields(b)|
    ensures var v, kind, t := ToFields(b)[k], Schema(Code(b))[k].kind, FieldAt(FieldsOf(b), k);
            && (kind == KState ==> GivesState(t, Normal(v)))
            && (kind == KError ==> GivesError(t, Normal(v)))
            && (kind == KStringMap ==> GivesMap(t, Normal(v)))
  {
    hide FormOf, FieldAt, FieldsOf, Encodable, GivesState, GivesError, GivesMap, ToFields, Schema, FaithfulFields, Normal;
    FieldOf(b, k);
    FormNested(b, k);
  }

  lemma {:induction false} BeginGives(b: Body)
    requires b.BeginBody? && FaithfulBody(b) && Sizeable(Composite(Code(b), ToFields(b)))
    ensures GivesBegin(FieldsOf(b), NormalBody(b).begin)
  {
    hide FormOf, FieldAt, FieldsOf, Encodable, Normal, GivesNum, GivesOpt, GivesSymbols, GivesMap, Sizeable, FaithfulFields;
    var x := b.begin;
    OptAt(b, 0, Ushort, x.remoteChannel);
    UintAt(b, 1, x.nextOutgoingId);
    UintAt(b, 2, x.incomingWindow);
    UintAt(b, 3, x.outgoingWindow);
    FieldOf(b, 4);
    if x.handleMax == 0xffff_ffff { NullGives(); } else { UintAt(b, 4, x.handleMax); }
    FieldOf(b, 5);
    FormSymbols(x.offered);
    FieldOf(b, 6);
    FormSymbols(x.desired);
    NestedHere(b, 7);
  }

  lemma {:induction false} FlowGives(b: Body)
    requires b.FlowBody? && FaithfulBody(b) && Sizeable(Composite(Code(b), ToFields(b)))
    ensures GivesFlow(FieldsOf(b), NormalBody(b).flow)
  {
    hide FormOf, FieldAt, FieldsOf, Encodable, Normal, GivesNum, GivesOpt, GivesFlag, GivesMap, Sizeable, FaithfulFields;
    var x := b.flow;
    OptAt(b, 0, Uint, x.nextIncomingId);
    UintAt(b, 1, x.incomingWindow);
    UintAt(b, 2, x.nextOutgoingId);
    UintAt(b, 3, x.outgoingWindow);
    OptAt(b, 4, Uint, x.handle);
    OptAt(b, 5, Uint, x.deliveryCount);
    OptAt(b, 6, Uint, x.linkCredit);
    OptAt(b, 7, Uint, x.available);
    FlagAt(b, 8, x.drain);
    FlagAt(b, 9, x.echo);
    NestedHere(b, 10);
  }

  lemma {:induction false} TransferGives(b: Body)
    requires b.TransferBody? && FaithfulBody(b) && Sizeable(Composite(Code(b), ToFields(b)))
    ensures GivesTransfer(FieldsOf(b), NormalBody(b).transfer)
  {
    hide FieldAt, FieldsOf, Encodable, Normal, GivesNum, GivesOpt, GivesFlag, GivesState, GivesBinary, Sizeable, FaithfulFields,
      ToFields;
    TransferNames(b);
    TransferFlagsGiven(b);
  }

  lemma {:induction false} TransferNames(b: Body)
    requires b.TransferBody? && EncodableBody(b)
    ensures var x, fields := b.transfer, FieldsOf(b);
            && GivesUint(FieldAt(fields, 0), x.handle) && GivesOpt(FieldAt(fields, 1), Uint, x.deliveryId)
            && GivesBinary(FieldAt(fields, 2), if x.tag == Some([]) then None else x.tag)
            && GivesOpt(FieldAt(fields, 3), Uint, x.format) && GivesOpt(FieldAt(fields, 6), Ubyte, x.rcvMode)
  {
    hide FormOf, FieldAt, FieldsOf, Encodable, GivesNum, GivesOpt, GivesBinary;
    var x, fs := b.transfer, ToFields(b);
    UintAt(b, 0, x.handle);
    OptAt(b, 1, Uint, x.deliveryId);
    FieldOf(b, 2);
    TagGives(x, fs[2]);
    OptAt(b, 3, Uint, x.format);
    OptAt(b, 6, Ubyte, x.rcvMode);
  }

  lemma {:induction false} TransferFlagsGiven(b: Body)
    requires b.TransferBody? && FaithfulBody(b) && Sizeable(Composite(Code(b), ToFields(b)))
    ensures var x, fields := b.transfer, FieldsOf(b);
            && GivesFlag(FieldAt(fields, 4), x.settled) && GivesFlag(FieldAt(fields, 5), x.more)
            && GivesState(FieldAt(fields, 7), Normal(x.state)) && GivesFlag(FieldAt(fields, 8), x.resume)
            && GivesFlag(FieldAt(fields, 9), x.aborted) && GivesFlag(FieldAt(fields, 10), x.batchable)
  {
    hide FormOf, FieldAt, FieldsOf, Encodable, Normal, GivesFlag, GivesState, Sizeable, FaithfulFields;
    var x := b.transfer;
    FlagAt(b, 4, x.settled);
    FlagAt(b, 5, x.more);
    NestedHere(b, 7);
    FlagAt(b, 8, x.resume);
    FlagAt(b, 9, x.aborted);
    FlagAt(b, 10, x.batchable);
  }

  lemma {:induction false} TagGives(x: Transfer, v: Value)
    requires v == (if x.tag.None? || x.tag.value == [] then Null else Var(Binary, x.tag.value)) && Encodable(v)
    ensures GivesBinary(FormOf(v), if x.tag == Some([]) then None else x.tag)
  {
    if x.tag.Some? && x.tag.value != [] { FormTag(x.tag); }
  }

  lemma {:induction false} DispositionGives(b: Body)
    requires b.DispositionBody? && FaithfulBody(b) && Sizeable(Composite(Code(b), ToFields(b)))
    ensures GivesDisposition(FieldsOf(b), NormalBody(b).disposition)
  {
    hide FormOf, FieldAt, FieldsOf, Encodable, Normal, GivesNum, GivesOpt, GivesFlag, GivesBool, GivesState, Sizeable,
      FaithfulFields;
    var x := b.disposition;
    FieldOf(b, 0);
    FormFlag(x.role);
    UintAt(b, 1, x.first);
    OptAt(b, 2, Uint, x.last);
    FlagAt(b, 3, x.settled);
    NestedHere(b, 4);
    FlagAt(b, 5, x.batchable);
  }

  lemma {:induction false} ClosingGives(b: Body)
    requires (b.DetachBody? || b.EndBody? || b.CloseBody?) && FaithfulBody(b)
    requires Sizeable(Composite(Code(b), ToFields(b))) && |FieldsOf(b)| <= FieldCount(b)
    ensures Gives(FieldsOf(b), NormalBody(b))
  {
    hide FormOf, FieldAt, FieldsOf, Encodable, Normal, GivesNum, GivesFlag, GivesError, Sizeable, FaithfulFields;
    if b.DetachBody? {
      UintAt(b, 0, b.handle);
      FlagAt(b, 1, b.closed);
      NestedHere(b, 2);
    } else {
      NestedHere(b, 0);
    }
  }

  /**
   Writing: the body of a performative begins with its number and goes on with its fields, each in its
   place and in a form any reader of the standard understands.
   */
  lemma {:induction false} BodyConforms(b: Body)
    requires FaithfulBody(b) && Sizeable(Composite(Code(b), ToFields(b)))
    ensures EncodeBody(b) == Written(NormalBody(b), ListOf(b), FieldsOf(b))
    ensures ProperFields(ListOf(b), FieldsOf(b)) && Gives(FieldsOf(b), NormalBody(b))
  {
    hide Encode, FormOf, Forms, FaithfulFields, Encodable, Proper, Bytes, FieldList, FieldListFits, ItemBytes, SetCount,
      ToFields, Typed, Complete, Filled, Normal, Sizeable, GivesBegin, GivesFlow, GivesTransfer, GivesDisposition, NormalFields,
      Schema, Standard;
    FieldsConform(Code(b), ToFields(b));
    FormBytes(Composite(Code(b), ToFields(b)));
    CompositeForm(Code(b), ToFields(b));
    HeadAt(Code(b), ListOf(b), FieldsOf(b), []);
    NumberIs(b);
    match b
    case BeginBody(_) => BeginGives(b);
    case FlowBody(_) => FlowGives(b);
    case TransferBody(_) => TransferGives(b);
    case DispositionBody(_) => DispositionGives(b);
    case _ => ClosingGives(b);
  }

  lemma {:induction false} NumberIs(b: Body)
    ensures Code(b) == Number(b) == Number(NormalBody(b)) && |ToFields(b)| == FieldCount(b) == FieldCount(NormalBody(b))
    ensures Payload(NormalBody(b)) == Payload(b)
  {
    hide Normal;
  }

  /** A body that does not begin with one of the seven numbers in one byte is no performative here. */
  lemma {:induction false} BodyRefused(bs: bytes)
    requires |bs| < 3 || bs[0] != 0x00 || bs[1] != 0x53 || (bs[2] != 0x11 && !(0x13 <= bs[2] <= 0x18))
    ensures ParseBody(bs) == Err || ParseBody(bs).Panic?
    ensures |bs| < 3 || bs[0] != 0x00 || bs[1] != 0x53 ==> ParseBody(bs) == Err
  {
    hide UnmarshalComposite;
  }

  // ---- what is not written -----------------------------------------------------------

  /** Fields that are at their defaults are left off or null: nothing is written for them. */
  lemma {:induction false} DefaultsOmitted(b: Body)
    ensures var fs := ToFields(b);
            match b
            case BeginBody(x) =>
              && (fs[0] == Null <==> x.remoteChannel.None?) && (fs[4] == Null <==> x.handleMax == 0xffff_ffff)
              && (fs[5] == Null <==> x.offered == []) && (fs[6] == Null <==> x.desired == [])
            case FlowBody(x) =>
              && (fs[0] == Null <==> x.nextIncomingId.None?) && (fs[4] == Null <==> x.handle.None?)
              && (fs[5] == Null <==> x.deliveryCount.None?) && (fs[6] == Null <==> x.linkCredit.None?)
              && (fs[7] == Null <==> x.available.None?) && (fs[8] == Null <==> !x.drain) && (fs[9] == Null <==> !x.echo)
              && (fs[10] == Null <==> x.properties == Null || x.properties == Map([]))
            case TransferBody(x) =>
              && (fs[1] == Null <==> x.deliveryId.None?) && (fs[2] == Null <==> x.tag.None? || x.tag == Some([]))
              && (fs[3] == Null <==> x.format.None?) && (fs[4] == Null <==> !x.settled) && (fs[5] == Null <==> !x.more)
              && (fs[6] == Null <==> x.rcvMode.None?) && (fs[8] == Null <==> !x.resume)
              && (fs[9] == Null <==> !x.aborted) && (fs[10] == Null <==> !x.batchable)
            case DispositionBody(x) =>
              && fs[0] != Null && (fs[2] == Null <==> x.last.None?)
              && (fs[3] == Null <==> !x.settled) && (fs[5] == Null <==> !x.batchable)
            case DetachBody(_, closed, _) => fs[1] == Null <==> !closed
            case _ => true
  {
    hide Schema;
    match b
    case BeginBody(x) =>
    case FlowBody(x) =>
    case TransferBody(x) =>
    case DispositionBody(x) =>
    case _ =>
  }

  /** So a flow with an empty property map is written as one with none. */
  lemma {:induction false} EmptyPropertiesOmitted(x: Flow)
    requires EncodableBody(FlowBody(x.(properties := Null)))
    ensures EncodableBody(FlowBody(x.(properties := Map([]))))
    ensures EncodeBody(FlowBody(x.(properties := Map([])))) == EncodeBody(FlowBody(x.(properties := Null)))
  {
    hide Encode, Encodable;
    assert ToFields(FlowBody(x.(properties := Map([])))) == ToFields(FlowBody(x.(properties := Null)));
  }
}
