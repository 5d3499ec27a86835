/**
 The performatives whose fields the protocol depends on, their composite encodings, and the
 size of a transfer frame.
 */
module Frames {
  import opened Words
  import opened Values
  import opened Decoder
  import opened RoundTrip

  datatype Begin = Begin(remoteChannel: Option<uint16>, nextOutgoingId: uint32, incomingWindow: uint32,
                         outgoingWindow: uint32, handleMax: uint32,
                         offered: seq<bytes>, desired: seq<bytes>, properties: Value)

  datatype Flow = Flow(nextIncomingId: Option<uint32>, incomingWindow: uint32, nextOutgoingId: uint32,
                       outgoingWindow: uint32, handle: Option<uint32>, deliveryCount: Option<uint32>,
                       linkCredit: Option<uint32>, available: Option<uint32>, drain: bool, echo: bool,
                       properties: Value)

  datatype Transfer = Transfer(handle: uint32, deliveryId: Option<uint32>, tag: Option<bytes>,
                               format: Option<uint32>, settled: bool, more: bool, rcvMode: Option<byte>,
                               state: Value, resume: bool, aborted: bool, batchable: bool, payload: bytes)

  /** Role is true for a receiver. */
  datatype Disposition = Disposition(role: bool, first: uint32, last: Option<uint32>, settled: bool,
                                     state: Value, batchable: bool)

  datatype Body =
    | BeginBody(begin: Begin)
    | FlowBody(flow: Flow)
    | TransferBody(transfer: Transfer)
    | DispositionBody(disposition: Disposition)
    | DetachBody(handle: uint32, closed: bool, error: Value)
    | EndBody(error: Value)
    | CloseBody(error: Value)

  // ---- to fields: a Go zero value, nil or default is omitted --------------------------

  function OptNum(k: NumKind, o: Option<int>): (v: Value) {
    match o case None => Null case Some(n) => Num(k, n)
  }

  function FlagOf(b: bool): (v: Value) {
    if b then Bool(true) else Null
  }

  function SymbolsOf(ss: seq<bytes>): (v: Value) {
    if ss == [] then Null else VarArray(Symbol, ss)
  }

  /** A flow omits an empty property map. */
  function NonEmpty(v: Value): (r: Value) {
    if v == Map([]) then Null else v
  }

  function Code(b: Body): (c: byte) {
    match b
    case BeginBody(_) => BEGIN case FlowBody(_) => FLOW case TransferBody(_) => TRANSFER
    case DispositionBody(_) => DISPOSITION case DetachBody(_, _, _) => DETACH
    case EndBody(_) => END case CloseBody(_) => CLOSE
  }

  function ToFields(b: Body): (fs: seq<Value>)
    ensures |fs| == |Schema(Code(b))|
  {
    match b
    case BeginBody(x) =>
      [OptNum(Ushort, x.remoteChannel), Num(Uint, x.nextOutgoingId), Num(Uint, x.incomingWindow),
       Num(Uint, x.outgoingWindow), if x.handleMax == 0xffff_ffff then Null else Num(Uint, x.handleMax),
       SymbolsOf(x.offered), SymbolsOf(x.desired), x.properties]
    case FlowBody(x) =>
      [OptNum(Uint, x.nextIncomingId), Num(Uint, x.incomingWindow), Num(Uint, x.nextOutgoingId),
       Num(Uint, x.outgoingWindow), OptNum(Uint, x.handle), OptNum(Uint, x.deliveryCount),
       OptNum(Uint, x.linkCredit), OptNum(Uint, x.available), FlagOf(x.drain), FlagOf(x.echo),
       NonEmpty(x.properties)]
    case TransferBody(x) =>
      [Num(Uint, x.handle), OptNum(Uint, x.deliveryId),
       if x.tag.None? || x.tag.value == [] then Null else Var(Binary, x.tag.value),
       OptNum(Uint, x.format), FlagOf(x.settled), FlagOf(x.more), OptNum(Ubyte, x.rcvMode), x.state,
       FlagOf(x.resume), FlagOf(x.aborted), FlagOf(x.batchable)]
    case DispositionBody(x) =>
      [Bool(x.role), Num(Uint, x.first), OptNum(Uint, x.last), FlagOf(x.settled), x.state, FlagOf(x.batchable)]
    case DetachBody(h, c, e) => [Num(Uint, h), FlagOf(c), e]
    case EndBody(e) => [e]
    case CloseBody(e) => [e]
  }

  // ---- from fields -------------------------------------------------------------------

  function U32(v: Value): (n: uint32) { if v.Num? && 0 <= v.n < MOD32 then v.n else 0 }
  function OptU32(v: Value): (n: Option<uint32>) { if v.Num? then Some(U32(v)) else None }
  function Truth(v: Value): (b: bool) { v.Bool? && v.b }
  function Symbols(v: Value): (ss: seq<bytes>) { if v.VarArray? then v.ss else [] }

  /** Fills a performative from its decoded fields; a transfer also takes the rest of the body. */
  function FromFields(code: byte, fs: seq<Value>, rest: bytes): (b: Option<Body>)
    requires |fs| == |Schema(code)|
  {
    if code == BEGIN then
      Some(BeginBody(Begin(if fs[0].Num? && 0 <= fs[0].n < 0x1_0000 then Some(fs[0].n) else None,
                           U32(fs[1]), U32(fs[2]), U32(fs[3]), U32(fs[4]), Symbols(fs[5]), Symbols(fs[6]), fs[7])))
    else if code == FLOW then
      Some(FlowBody(Flow(OptU32(fs[0]), U32(fs[1]), U32(fs[2]), U32(fs[3]), OptU32(fs[4]), OptU32(fs[5]),
                         OptU32(fs[6]), OptU32(fs[7]), Truth(fs[8]), Truth(fs[9]), fs[10])))
    else if code == TRANSFER then
      Some(TransferBody(Transfer(U32(fs[0]), OptU32(fs[1]), if fs[2].Var? then Some(fs[2].s) else None,
                                 OptU32(fs[3]), Truth(fs[4]), Truth(fs[5]),
                                 if fs[6].Num? && 0 <= fs[6].n < 256 then Some(fs[6].n) else None,
                                 fs[7], Truth(fs[8]), Truth(fs[9]), Truth(fs[10]), rest)))
    else if code == DISPOSITION then
      Some(DispositionBody(Disposition(Truth(fs[0]), U32(fs[1]), OptU32(fs[2]), Truth(fs[3]), fs[4], Truth(fs[5]))))
    else if code == DETACH then Some(DetachBody(U32(fs[0]), Truth(fs[1]), fs[2]))
    else if code == END then Some(EndBody(fs[0]))
    else if code == CLOSE then Some(CloseBody(fs[0]))
    else None
  }

  // ---- whole bodies ------------------------------------------------------------------

  function Payload(b: Body): (s: bytes) {
    if b.TransferBody? then b.transfer.payload else []
  }

  /** Every field value can be marshaled. */
  ghost predicate EncodableBody(b: Body) {
    Encodable(Composite(Code(b), ToFields(b)))
  }

  /** And read back. */
  ghost predicate FaithfulBody(b: Body) {
    EncodableBody(b) && FaithfulFields(ToFields(b), Schema(Code(b)))
  }

  /** Or it could be, were it not for the keys of its maps. */
  ghost predicate ReadableBody(b: Body) {
    EncodableBody(b) && ReadableFields(ToFields(b), Schema(Code(b)))
  }

  ghost function EncodeBody(b: Body): (s: bytes)
    requires EncodableBody(b)
  {
    Encode(Composite(Code(b), ToFields(b))) + Payload(b)
  }

  /** ParseBody on the performatives above; other codes are errors here. */
  function ParseBody(bs: bytes): (r: Result<Body>)
    ensures r.Ok? ==> 0 < r.next <= |bs|
  {
    if |bs| < 3 || bs[0] != 0x00 || bs[1] != 0x53 then Err
    else
      var (v, j) :- UnmarshalComposite(bs, 0, bs[2]);
      match FromFields(bs[2], v.fields, bs[j..])
      case None => Err
      case Some(b) => Ok(b, if b.TransferBody? then |bs| else j)
  }

  /** A body as the decoder returns it: nested values in normal form, an empty tag as no tag. */
  function NormalBody(b: Body): (r: Body) {
    match b
    case BeginBody(x) => BeginBody(x.(properties := Normal(x.properties)))
    case FlowBody(x) => FlowBody(x.(properties := Normal(NonEmpty(x.properties))))
    case TransferBody(x) =>
      TransferBody(x.(state := Normal(x.state), tag := if x.tag == Some([]) then None else x.tag))
    case DispositionBody(x) => DispositionBody(x.(state := Normal(x.state)))
    case DetachBody(h, c, e) => DetachBody(h, c, Normal(e))
    case EndBody(e) => EndBody(Normal(e))
    case CloseBody(e) => CloseBody(Normal(e))
  }

  /** Field by field: r is fs in normal form, defaults filled in. */
  ghost predicate Back(fs: seq<Value>, schema: seq<Field>, r: seq<Value>) {
    && |fs| == |schema| == |r|
    && forall k | 0 <= k < |r| ::
         r[k] == if fs[k] == Null && schema[k].onNull.Default? then schema[k].onNull.v else Normal(fs[k])
  }

  lemma {:induction false} NormalLeaf(v: Value)
    requires v.Num? || v.Bool? || v.Null? || (v.Var? && v.vk != Symbol)
    ensures Normal(v) == v
  {
  }

  lemma {:induction false} BeginBack(b: Body, r: seq<Value>, rest: bytes)
    requires b.BeginBody? && Back(ToFields(b), Schema(BEGIN), r)
    ensures FromFields(BEGIN, r, rest) == Some(NormalBody(b))
  {
    hide NormalFields, NormalEntries, NormalItems;
    var x := Begin(b.begin.remoteChannel, U32(r[1]), U32(r[2]), U32(r[3]), U32(r[4]), Symbols(r[5]), Symbols(r[6]), r[7]);
    assert x == b.begin.(properties := Normal(b.begin.properties));
  }

  lemma {:induction false} FlowBack(b: Body, r: seq<Value>, rest: bytes)
    requires b.FlowBody? && Back(ToFields(b), Schema(FLOW), r)
    ensures FromFields(FLOW, r, rest) == Some(NormalBody(b))
  {
    hide Normal, Back, ToFields, Schema;
    FlowParts(b.flow, r);
  }

  lemma {:induction false} FlowParts(x: Flow, r: seq<Value>)
    requires Back(ToFields(FlowBody(x)), Schema(FLOW), r)
    ensures OptU32(r[0]) == x.nextIncomingId && U32(r[1]) == x.incomingWindow && U32(r[2]) == x.nextOutgoingId
    ensures U32(r[3]) == x.outgoingWindow && OptU32(r[4]) == x.handle && OptU32(r[5]) == x.deliveryCount
    ensures OptU32(r[6]) == x.linkCredit && OptU32(r[7]) == x.available
    ensures Truth(r[8]) == x.drain && Truth(r[9]) == x.echo && r[10] == Normal(NonEmpty(x.properties))
  {
    hide Normal;
    var fs := ToFields(FlowBody(x));
    NormalLeaf(fs[0]); NormalLeaf(fs[1]); NormalLeaf(fs[2]); NormalLeaf(fs[3]); NormalLeaf(fs[4]); NormalLeaf(fs[5]);
    NormalLeaf(fs[6]); NormalLeaf(fs[7]); NormalLeaf(Bool(true)); NormalLeaf(Null);
  }

  lemma {:induction false} TransferFlags(x: Transfer, r: seq<Value>)
    requires Back(ToFields(TransferBody(x)), Schema(TRANSFER), r)
    ensures Truth(r[4]) == x.settled && Truth(r[5]) == x.more
    ensures Truth(r[8]) == x.resume && Truth(r[9]) == x.aborted && Truth(r[10]) == x.batchable
    ensures r[7] == Normal(x.state)
  {
    hide Normal;
    NormalLeaf(Bool(true));
    NormalLeaf(Null);
  }

  lemma {:induction false} TransferIds(x: Transfer, r: seq<Value>)
    requires Back(ToFields(TransferBody(x)), Schema(TRANSFER), r)
    ensures r[0] == Num(Uint, x.handle) && OptU32(r[1]) == x.deliveryId && OptU32(r[3]) == x.format
    ensures r[2] == if x.tag.None? || x.tag.value == [] then Null else Var(Binary, x.tag.value)
    ensures r[6] == OptNum(Ubyte, x.rcvMode)
  {
    hide Normal;
    var fs := ToFields(TransferBody(x));
    NormalLeaf(fs[0]); NormalLeaf(fs[1]); NormalLeaf(fs[2]); NormalLeaf(fs[3]); NormalLeaf(fs[6]);
  }

  lemma {:induction false} TransferBack(b: Body, r: seq<Value>)
    requires b.TransferBody? && Back(ToFields(b), Schema(TRANSFER), r)
    ensures FromFields(TRANSFER, r, b.transfer.payload) == Some(NormalBody(b))
  {
    hide Normal, Back, ToFields, Schema;
    TransferFlags(b.transfer, r);
    TransferIds(b.transfer, r);
  }

  lemma {:induction false} DispositionBack(b: Body, r: seq<Value>, rest: bytes)
    requires b.DispositionBody? && Back(ToFields(b), Schema(DISPOSITION), r)
    ensures FromFields(DISPOSITION, r, rest) == Some(NormalBody(b))
  {
    hide NormalFields, NormalEntries, NormalItems;
  }

  lemma {:induction false} ClosingBack(b: Body, r: seq<Value>, rest: bytes)
    requires b.DetachBody? || b.EndBody? || b.CloseBody?
    requires Back(ToFields(b), Schema(Code(b)), r)
    ensures FromFields(Code(b), r, rest) == Some(NormalBody(b))
  {
    hide NormalFields, NormalEntries, NormalItems;
  }

  lemma {:induction false} FieldsThere(b: Body)
    ensures FromFields(Code(b), NormalFields(ToFields(b), Schema(Code(b)), 0), Payload(b)) == Some(NormalBody(b))
  {
    hide NormalFields, ToFields, FromFields, Schema, Normal, Encodable, FaithfulFields, NormalBody;
    var fs, schema := ToFields(b), Schema(Code(b));
    var r := NormalFields(fs, schema, 0);
    forall k | 0 <= k < |r|
      ensures r[k] == if fs[k] == Null && schema[k].onNull.Default? then schema[k].onNull.v else Normal(fs[k])
    {
      NormalFieldAt(fs, schema, 0, k);
    }
    match b
    case BeginBody(_) => BeginBack(b, r, []);
    case FlowBody(_) => FlowBack(b, r, []);
    case TransferBody(_) => TransferBack(b, r);
    case DispositionBody(_) => DispositionBack(b, r, []);
    case _ => ClosingBack(b, r, []);
  }

  lemma {:induction false} NormalFieldAt(fs: seq<Value>, schema: seq<Field>, k: nat, t: nat)
    requires |fs| == |schema| && k <= t < |fs|
    ensures NormalFields(fs, schema, k)[t - k]
         == if fs[t] == Null && schema[t].onNull.Default? then schema[t].onNull.v else Normal(fs[t])
    decreases |fs| - k
  {
    if k < t { NormalFieldAt(fs, schema, k + 1, t); }
  }

  function JudgeBody(b: Body): (d: Verdict) {
    JudgeFields(ToFields(b), Schema(Code(b)), 0)
  }

  /** What parsing any performative gives: itself, with a transfer's payload, unless some key decides otherwise. */
  lemma {:induction false} BodyOutcome(b: Body)
    requires ReadableBody(b)
    ensures ParseBody(EncodeBody(b)) == Told(JudgeBody(b), NormalBody(b), |EncodeBody(b)|)
  {
    hide UnmarshalComposite, NormalFields, Schema, ToFields, FromFields, Encodable, ReadableFields, JudgeFields;
    var v := Composite(Code(b), ToFields(b));
    var bs := EncodeBody(b);
    assert At(bs, 0, Encode(v));
    CompositeOutcome(Code(b), ToFields(b), bs, 0);
    StatePeek(Code(b), ToFields(b), bs, 0);
    assert bs[|Encode(v)|..] == Payload(b);
    FieldsThere(b);
  }

  /** Every performative comes back, and a transfer's payload is found exactly behind its field list. */
  lemma {:induction false} BodyRoundTrip(b: Body)
    requires FaithfulBody(b)
    ensures ParseBody(EncodeBody(b)) == Ok(NormalBody(b), |EncodeBody(b)|)
  {
    hide ParseBody, EncodeBody, Encodable, FaithfulFields, ReadableFields, JudgeFields, ToFields, NormalBody;
    FaithfulFieldsFine(ToFields(b), Schema(Code(b)), 0);
    BodyOutcome(b);
  }

  // ---- keys in a delivery state ------------------------------------------------------

  const MODIFIED: byte := 0x27

  /** The outcome "modified", with annotations for the message. */
  function Modified(failed: Value, here: Value, es: seq<Entry>): (v: Value) {
    Composite(MODIFIED, [failed, here, Map(es)])
  }

  predicate FlagOrNull(v: Value) {
    v.Bool? || v.Null?
  }

  lemma {:induction false} ModifiedVerdict(failed: Value, here: Value, es: seq<Entry>)
    requires FlagOrNull(failed) && FlagOrNull(here)
    requires forall e | e in es :: Faithful(e.key) && Faithful(e.val)
    ensures Readable(Modified(failed, here, es))
    ensures Judge(Modified(failed, here, es), AnyKey)
         == if forall u | 0 <= u < |es| :: Hashable(es[u].key) then Fine else Crash
  {
    hide Faithful, Hashable, JudgeEntries, JudgeFields;
    var t := UnhashableOrNot(es, 0);
    JudgeFirst(es, 0, AnnotationKey, t);
    OneDecides([failed, here, Map(es)], Schema(MODIFIED), 2, 0);
    ModifiedReadable(failed, here, es);
  }

  lemma {:induction false} ModifiedReadable(failed: Value, here: Value, es: seq<Entry>)
    requires FlagOrNull(failed) && FlagOrNull(here)
    requires forall e | e in es :: Faithful(e.key) && Faithful(e.val)
    ensures Readable(Modified(failed, here, es))
  {
    hide Faithful, Judge;
    forall e | e in es ensures Readable(e.key) && Readable(e.val) {
      FaithfulFine(e.key, AnyKey);
      FaithfulFine(e.val, AnyKey);
    }
    var fs := [failed, here, Map(es)];
    assert Readable(fs[0]) && Readable(fs[1]) && Readable(fs[2]);
    assert ReadableFields(fs, Schema(MODIFIED));
  }

  /**
   A disposition whose state is "modified", and which would come back but for the keys of its
   annotations, does so exactly when Go can hash every key; otherwise parsing it panics.
   */
  lemma {:induction false} DispositionExact(d: Disposition, failed: Value, here: Value, es: seq<Entry>)
    requires d.state == Modified(failed, here, es) && EncodableBody(DispositionBody(d))
    requires FlagOrNull(failed) && FlagOrNull(here)
    requires forall e | e in es :: Faithful(e.key) && Faithful(e.val)
    ensures var bs := EncodeBody(DispositionBody(d));
            ParseBody(bs) == if forall u | 0 <= u < |es| :: Hashable(es[u].key)
                             then Ok(NormalBody(DispositionBody(d)), |bs|) else Panic
  {
    hide ParseBody, EncodeBody, Encodable, Faithful, Hashable, Readable, Judge, NormalBody, JudgeFields;
    ModifiedVerdict(failed, here, es);
    StateFits(failed, here, es);
    DispositionReadable(d);
    OneDecides(ToFields(DispositionBody(d)), Schema(DISPOSITION), 4, 0);
    BodyOutcome(DispositionBody(d));
  }

  /** The same for a transfer that carries the state. */
  lemma {:induction false} TransferExact(t: Transfer, failed: Value, here: Value, es: seq<Entry>)
    requires t.state == Modified(failed, here, es) && EncodableBody(TransferBody(t))
    requires FlagOrNull(failed) && FlagOrNull(here)
    requires forall e | e in es :: Faithful(e.key) && Faithful(e.val)
    ensures var bs := EncodeBody(TransferBody(t));
            ParseBody(bs) == if forall u | 0 <= u < |es| :: Hashable(es[u].key)
                             then Ok(NormalBody(TransferBody(t)), |bs|) else Panic
  {
    hide ParseBody, EncodeBody, Encodable, Faithful, Hashable, Readable, Judge, NormalBody, JudgeFields;
    ModifiedVerdict(failed, here, es);
    StateFits(failed, here, es);
    TransferReadable(t);
    OneDecides(ToFields(TransferBody(t)), Schema(TRANSFER), 7, 0);
    BodyOutcome(TransferBody(t));
  }

  lemma {:induction false} DispositionReadable(d: Disposition)
    requires Fits(KState, d.state) && d.state != Null && Readable(d.state)
    ensures ReadableFields(ToFields(DispositionBody(d)), Schema(DISPOSITION))
  {
    hide Fits;
    var fs, schema := ToFields(DispositionBody(d)), Schema(DISPOSITION);
    forall k | 0 <= k < |fs| && k != 4 && fs[k] != Null
      ensures Fits(schema[k].kind, fs[k]) && Readable(fs[k])
    {
      LeafFits(schema[k].kind, fs[k]);
    }
  }

  lemma {:induction false} TransferReadable(t: Transfer)
    requires Fits(KState, t.state) && t.state != Null && Readable(t.state)
    ensures ReadableFields(ToFields(TransferBody(t)), Schema(TRANSFER))
  {
    hide Fits;
    var fs, schema := ToFields(TransferBody(t)), Schema(TRANSFER);
    forall k | 0 <= k < |fs| && k != 7 && fs[k] != Null
      ensures Fits(schema[k].kind, fs[k]) && Readable(fs[k])
    {
      LeafFits(schema[k].kind, fs[k]);
    }
  }

  /** Numbers, flags and binaries fit the fields of their own kind. */
  lemma {:induction false} LeafFits(k: Kind, v: Value)
    requires || (k == KUint && v.Num? && v.k == Uint)
             || (k == KUbyte && v.Num? && v.k == Ubyte)
             || (k == KBool && v.Bool?)
             || (k == KBinary && v.Var? && v.vk == Binary)
    ensures Fits(k, v) && Readable(v)
  {
  }

  lemma {:induction false} StateFits(failed: Value, here: Value, es: seq<Entry>)
    ensures Fits(KState, Modified(failed, here, es)) && Modified(failed, here, es) != Null
  {
  }

  // ---- the size of a transfer frame --------------------------------------------------

  /** Bytes writeUint32 uses. */
  function UintSize(n: uint32): (s: nat) {
    if n == 0 then 1 else if n < 256 then 2 else 5
  }

  lemma {:induction false} UintSizeIs(n: uint32)
    ensures Encodable(Num(Uint, n)) && |Encode(Num(Uint, n))| == UintSize(n)
  {
    Pow256Small();
    hide FromBe;
  }

  /** Size on the wire: frame header, composite header, fields, payload. */
  ghost function FrameSize(t: Transfer): (n: nat)
    requires EncodableBody(TransferBody(t))
  {
    8 + |EncodeBody(TransferBody(t))|
  }

  /** The transfers send builds: only the first carries an id, a tag and a format. */
  ghost predicate SentShape(t: Transfer) {
    && (t.deliveryId.Some? == t.tag.Some? == t.format.Some?)
    && (t.tag.Some? ==> 0 < |t.tag.value| < 256)
    && t.rcvMode.None? && t.state.Null? && !t.resume && !t.aborted && !t.batchable
  }

  /** Bytes before the payload. */
  function HeaderSize(t: Transfer): (n: nat) {
    var first := if t.deliveryId.Some? && t.tag.Some? && t.format.Some?
                 then UintSize(t.deliveryId.value) + 2 + |t.tag.value| + UintSize(t.format.value) else 3;
    var flags := if t.more then 2 else if t.settled then 1 else 0;
    20 + UintSize(t.handle)
       + (if t.deliveryId.None? && flags == 0 then 0 else first)
       + flags
  }

  lemma {:induction false} SentFaithful(t: Transfer)
    requires SentShape(t)
    ensures FaithfulBody(TransferBody(t))
  {
    UintSizeIs(t.handle);
    if t.deliveryId.Some? { UintSizeIs(t.deliveryId.value); UintSizeIs(t.format.value); }
    hide EncodeNum, Encode, Pow256;
    SentFits(t);
    var fs := ToFields(TransferBody(t));
    forall x | x in fs ensures Encodable(x) {}
  }

  lemma {:induction false} SentFits(t: Transfer)
    requires SentShape(t)
    ensures FaithfulFields(ToFields(TransferBody(t)), Schema(TRANSFER))
  {
  }

  lemma {:induction false} RangeStep(fs: seq<Value>, k: nat, n: nat)
    requires k < n <= |fs| && forall x | x in fs :: Encodable(x)
    ensures |EncodeRange(fs, k, n)| == |Encode(fs[k])| + |EncodeRange(fs, k + 1, n)|
  {
    hide Encode, Encodable;
  }

  lemma {:induction false} SetCountIs(fs: seq<Value>, n: nat)
    requires n <= |fs| && (n > 0 ==> fs[n - 1] != Null) && forall k | n <= k < |fs| :: fs[k] == Null
    ensures SetCount(fs) == n
  {
    hide SetCount;
  }

  /** The number of fields a sent transfer has on the wire. */
  function WireFields(t: Transfer): (n: nat) {
    if t.more then 6 else if t.settled then 5 else if t.deliveryId.Some? then 4 else 1
  }

  lemma {:induction false} FieldSizes(t: Transfer)
    requires SentShape(t)
    ensures var fs := ToFields(TransferBody(t));
            && SetCount(fs) == WireFields(t)
            && (forall x | x in fs :: Encodable(x))
            && |Encode(fs[0])| == UintSize(t.handle)
            && |Encode(fs[1])| == (if t.deliveryId.Some? then UintSize(t.deliveryId.value) else 1)
            && |Encode(fs[2])| == (if t.tag.Some? then 2 + |t.tag.value| else 1)
            && |Encode(fs[3])| == (if t.format.Some? then UintSize(t.format.value) else 1)
            && |Encode(fs[4])| == 1 && |Encode(fs[5])| == 1
  {
    hide Encode, SetCount, Schema, UintSize, ToFields, FaithfulFields, Pow256;
    SentFaithful(t);
    FieldsAre(t);
    WireFieldsAre(t);
    SizesAre(t, ToFields(TransferBody(t)));
  }

  lemma {:induction false} SizesAre(t: Transfer, fs: seq<Value>)
    requires SentShape(t) && |fs| == 11 && forall x | x in fs :: Encodable(x)
    requires fs[0] == Num(Uint, t.handle)
    requires fs[1] == (if t.deliveryId.Some? then Num(Uint, t.deliveryId.value) else Null)
    requires fs[2] == (if t.tag.Some? then Var(Binary, t.tag.value) else Null)
    requires fs[3] == (if t.format.Some? then Num(Uint, t.format.value) else Null)
    requires fs[4] == (if t.settled then Bool(true) else Null) && fs[5] == (if t.more then Bool(true) else Null)
    ensures |Encode(fs[0])| == UintSize(t.handle)
    ensures |Encode(fs[1])| == (if t.deliveryId.Some? then UintSize(t.deliveryId.value) else 1)
    ensures |Encode(fs[2])| == (if t.tag.Some? then 2 + |t.tag.value| else 1)
    ensures |Encode(fs[3])| == (if t.format.Some? then UintSize(t.format.value) else 1)
    ensures |Encode(fs[4])| == 1 && |Encode(fs[5])| == 1
  {
    hide Encode, UintSize, Encodable;
    UintSizeIs(t.handle);
    if t.deliveryId.Some? {
      UintSizeIs(t.deliveryId.value);
      UintSizeIs(t.format.value);
      TagSizeIs(t.tag.value);
    }
    FlagSizes();
  }

  /** The first six fields of a sent transfer. */
  lemma {:induction false} FieldsAre(t: Transfer)
    requires SentShape(t)
    ensures var fs := ToFields(TransferBody(t));
            && |fs| == 11 && fs[0] == Num(Uint, t.handle)
            && fs[1] == (if t.deliveryId.Some? then Num(Uint, t.deliveryId.value) else Null)
            && fs[2] == (if t.tag.Some? then Var(Binary, t.tag.value) else Null)
            && fs[3] == (if t.format.Some? then Num(Uint, t.format.value) else Null)
            && fs[4] == (if t.settled then Bool(true) else Null) && fs[5] == (if t.more then Bool(true) else Null)
  {
  }

  lemma {:induction false} TagSizeIs(tag: bytes)
    requires |tag| < 256
    ensures Encodable(Var(Binary, tag)) && |Encode(Var(Binary, tag))| == 2 + |tag|
  {
  }

  lemma {:induction false} FlagSizes()
    ensures |Encode(Null)| == 1 && |Encode(Bool(true))| == 1
  {
  }

  lemma {:induction false} WireFieldsAre(t: Transfer)
    requires SentShape(t)
    ensures SetCount(ToFields(TransferBody(t))) == WireFields(t)
  {
    hide SetCount;
    SetCountIs(ToFields(TransferBody(t)), WireFields(t));
  }

  /** The header of a sent transfer frame has exactly HeaderSize bytes. */
  lemma {:induction false} FrameSizeExact(t: Transfer)
    requires SentShape(t)
    ensures FaithfulBody(TransferBody(t)) && FrameSize(t) == HeaderSize(t) + |t.payload|
  {
    SentFaithful(t);
    FieldSizes(t);
    var fs, n := ToFields(TransferBody(t)), WireFields(t);
    CompositeBytes(TRANSFER, fs);
    hide Encode, EncodeRange, SetCount, Encodable, FaithfulFields, ToFields, Header32, UintSize;
    RangeLength(fs, n);
  }

  /** The fields written, one by one. */
  lemma {:induction false} RangeLength(fs: seq<Value>, n: nat)
    requires (n == 1 || n == 4 || n == 5 || n == 6) && n <= |fs| && forall x | x in fs :: Encodable(x)
    ensures |EncodeRange(fs, 0, n)| == |Encode(fs[0])|
            + (if n > 1 then |Encode(fs[1])| + |Encode(fs[2])| + |Encode(fs[3])| else 0)
            + (if n > 4 then |Encode(fs[4])| else 0) + (if n > 5 then |Encode(fs[5])| else 0)
  {
    hide Encode, EncodeRange, Encodable;
    RangeDone(fs, n);
    if n > 5 { RangeStep(fs, 5, n); }
    if n > 4 { RangeStep(fs, 4, n); }
    if n > 1 { RangeStep(fs, 3, n); RangeStep(fs, 2, n); RangeStep(fs, 1, n); }
    RangeStep(fs, 0, n);
  }

  lemma {:induction false} RangeDone(fs: seq<Value>, n: nat)
    requires n <= |fs| && forall x | x in fs :: Encodable(x)
    ensures EncodeRange(fs, n, n) == []
  {
    hide Encodable;
  }

  const MAX_TRANSFER_HEADER: nat := 66

  /**
   writeFrame's size check against what send cuts: every frame with a tag of at most 27 bytes
   passes; a full first frame of a longer message passes exactly when handle, id, format and tag
   leave room; a continuation frame always passes.
   */
  lemma {:induction false} SentFrameFits(t: Transfer, peerMax: nat)
    requires SentShape(t) && peerMax > MAX_TRANSFER_HEADER && |t.payload| <= peerMax - MAX_TRANSFER_HEADER
    ensures FaithfulBody(TransferBody(t))
    ensures t.tag.Some? && |t.tag.value| <= 27 ==> FrameSize(t) <= peerMax
    ensures t.tag.None? ==> HeaderSize(t) <= 30 && FrameSize(t) <= peerMax
    ensures t.tag.Some? && t.more && |t.payload| == peerMax - MAX_TRANSFER_HEADER ==>
              (FrameSize(t) <= peerMax <==>
               UintSize(t.handle) + UintSize(t.deliveryId.value) + UintSize(t.format.value) + |t.tag.value| <= 42)
  {
    FrameSizeExact(t);
    hide FrameSize, FaithfulBody;
  }
}
