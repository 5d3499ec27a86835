/** Messages: the sections they are written as, and the loop that reads sections back. */
module Messages {
  import opened Words
  import opened Values
  import opened Decoder
  import opened RoundTrip

  const DELIVERY_ANNOTATIONS: byte := 0x71
  const ANNOTATIONS: byte := 0x72
  const APPLICATION_PROPERTIES: byte := 0x74
  const DATA: byte := 0x75
  const SEQUENCE: byte := 0x76
  const VALUE: byte := 0x77
  const FOOTER: byte := 0x78

  /**
   Header and properties are composites, the annotations, application properties and footer are
   maps; Null is Go's nil throughout. The value Some(Null) is the exported Null type.
   */
  datatype Message = Message(header: Value, deliveryAnnotations: Value, annotations: Value, properties: Value,
                             applicationProperties: Value, data: seq<bytes>, value: Option<Value>,
                             sequence: seq<seq<Value>>, footer: Value)

  const EMPTY: Message := Message(Null, Null, Null, Null, Null, [], None, [], Null)

  datatype Section = Section(code: byte, body: Value)

  // ---- sections ----------------------------------------------------------------------

  function Optional(code: byte, v: Value): (ss: seq<Section>) {
    if v == Null then [] else [Section(code, v)]
  }

  function DataSections(ds: seq<bytes>): (ss: seq<Section>) {
    if ds == [] then [] else [Section(DATA, Var(Binary, ds[0]))] + DataSections(ds[1..])
  }

  function SequenceSections(qs: seq<seq<Value>>): (ss: seq<Section>) {
    if qs == [] then [] else [Section(SEQUENCE, List(qs[0]))] + SequenceSections(qs[1..])
  }

  /** The optional sections before the body. */
  function Preamble(m: Message): (ss: seq<Section>) {
    Optional(HEADER, m.header)
    + Optional(DELIVERY_ANNOTATIONS, m.deliveryAnnotations)
    + Optional(ANNOTATIONS, m.annotations)
    + Optional(PROPERTIES, m.properties)
    + Optional(APPLICATION_PROPERTIES, m.applicationProperties)
  }

  /** The order in which Marshal writes a message. */
  function SectionsOf(m: Message): (ss: seq<Section>) {
    Preamble(m)
    + DataSections(m.data)
    + (if m.value.Some? then [Section(VALUE, m.value.value)] else [])
    + SequenceSections(m.sequence)
    + Optional(FOOTER, m.footer)
  }

  /** What reading a section stores into the message. */
  function Apply(m: Message, s: Section): (r: Message) {
    var v := s.body;
    if s.code == HEADER then m.(header := v)
    else if s.code == DELIVERY_ANNOTATIONS then if v.Null? then m else m.(deliveryAnnotations := v)
    else if s.code == ANNOTATIONS then if v.Null? then m else m.(annotations := v)
    else if s.code == PROPERTIES then m.(properties := v)
    else if s.code == APPLICATION_PROPERTIES then if v.Null? then m else m.(applicationProperties := v)
    else if s.code == DATA then m.(data := m.data + [if v.Var? then v.s else []])
    else if s.code == SEQUENCE then m.(sequence := m.sequence + [if v.List? then v.items else []])
    else if s.code == FOOTER then if v.Null? then m else m.(footer := v)
    else if v.Null? then m else m.(value := Some(v))
  }

  function ApplyAll(m: Message, ss: seq<Section>): (r: Message)
    decreases |ss|
  {
    if ss == [] then m else ApplyAll(Apply(m, ss[0]), ss[1..])
  }

  // ---- reading -----------------------------------------------------------------------

  predicate IsSection(code: byte) {
    0x70 <= code <= 0x78
  }

  function ReadSection(bs: bytes, i: nat): (r: Result<Section>)
    ensures r.Ok? ==> i < r.next <= |bs| && IsSection(r.val.code)
  {
    var (code, j) :- PeekMessageType(bs, i);
    if !IsSection(code) then Err
    else
      var (v, m) :-
        if code == HEADER || code == PROPERTIES then UnmarshalComposite(bs, i, code)
        else ReadBody(bs, j, code);
      Ok(Section(code, v), m)
  }

  /** Unmarshal into the field of a section whose header has been skipped. */
  function ReadBody(bs: bytes, j: nat, code: byte): (r: Result<Value>)
    ensures r.Ok? ==> j < r.next <= |bs|
  {
    if j < |bs| && bs[j] == 0x40 then Ok(Null, j + 1)
    else if code == APPLICATION_PROPERTIES then ReadField(bs, j, KStringMap)
    else if code == DATA then ReadField(bs, j, KBinary)
    else if code == SEQUENCE then ReadList(bs, j)
    else if code == VALUE then ReadAny(bs, j)
    else ReadField(bs, j, KAnnotations)
  }

  /** Message.Unmarshal from index i on, into m. */
  function ReadMessage(bs: bytes, i: nat, m: Message): (r: Result<Message>)
    ensures r.Ok? ==> r.next == |bs| || r.next == i
    decreases |bs| - i
  {
    if i >= |bs| then Ok(m, i)
    else
      var (s, j) :- ReadSection(bs, i);
      ReadMessage(bs, j, Apply(m, s))
  }

  function Unmarshal(bs: bytes): (r: Result<Message>)
    ensures r.Ok? ==> r.next == |bs|
  {
    ReadMessage(bs, 0, EMPTY)
  }

  // ---- encoding ----------------------------------------------------------------------

  ghost predicate EncodableSections(ss: seq<Section>) {
    forall k | 0 <= k < |ss| :: Encodable(ss[k].body)
  }

  ghost function EncodeSection(s: Section): (r: bytes)
    requires Encodable(s.body)
    ensures |r| >= 1
  {
    (if s.code == HEADER || s.code == PROPERTIES then [] else [0x00, 0x53, s.code]) + Encode(s.body)
  }

  ghost function EncodeSections(ss: seq<Section>): (r: bytes)
    requires EncodableSections(ss)
  {
    if ss == [] then [] else EncodeSection(ss[0]) + EncodeSections(ss[1..])
  }

  // ---- round trip --------------------------------------------------------------------

  predicate IsAnnotations(code: byte) {
    code == DELIVERY_ANNOTATIONS || code == ANNOTATIONS || code == FOOTER
  }

  /** The body of a section has the type of the section. */
  ghost predicate SectionFits(s: Section) {
    && Encodable(s.body)
    && if s.code == HEADER || s.code == PROPERTIES then s.body.Composite? && s.body.code == s.code
       else
         && IsSection(s.code)
         && (s.code == APPLICATION_PROPERTIES ==> Fits(KStringMap, s.body))
         && (s.code == DATA ==> Fits(KBinary, s.body))
         && (s.code == SEQUENCE ==> s.body.List?)
         && (IsAnnotations(s.code) ==> s.body.Map?)
  }

  /** And it can be read back. */
  ghost predicate FaithfulSection(s: Section) {
    && SectionFits(s)
    && if s.code == HEADER || s.code == PROPERTIES then FaithfulFields(s.body.fields, Schema(s.code))
       else Faithful(s.body)
  }

  ghost predicate FaithfulSections(ss: seq<Section>) {
    EncodableSections(ss) && forall k | 0 <= k < |ss| :: FaithfulSection(ss[k])
  }

  /** Or it could, were it not for the keys of its maps. */
  ghost predicate ReadableSection(s: Section) {
    && SectionFits(s)
    && if s.code == HEADER || s.code == PROPERTIES then ReadableFields(s.body.fields, Schema(s.code))
       else Readable(s.body)
  }

  ghost predicate ReadableSections(ss: seq<Section>) {
    EncodableSections(ss) && forall k | 0 <= k < |ss| :: ReadableSection(ss[k])
  }

  /** How the keys of the section's body are taken, when it is a map. */
  function SectionMode(code: byte): (mode: KeyMode) {
    if code == APPLICATION_PROPERTIES then StringKey else if IsAnnotations(code) then AnnotationKey else AnyKey
  }

  function JudgeSection(s: Section): (d: Verdict) {
    Judge(s.body, SectionMode(s.code))
  }

  function JudgeSections(ss: seq<Section>): (d: Verdict) {
    if ss == [] then Fine else Then(JudgeSection(ss[0]), JudgeSections(ss[1..]))
  }

  function NormalSection(s: Section): (r: Section) {
    Section(s.code, Normal(s.body))
  }

  function NormalSections(ss: seq<Section>): (r: seq<Section>) {
    if ss == [] then [] else [NormalSection(ss[0])] + NormalSections(ss[1..])
  }

  lemma {:induction false} CompositeSectionOutcome(s: Section, bs: bytes, i: nat)
    requires ReadableSection(s) && (s.code == HEADER || s.code == PROPERTIES) && At(bs, i, EncodeSection(s))
    ensures ReadSection(bs, i) == Told(JudgeSection(s), NormalSection(s), i + |EncodeSection(s)|)
  {
    hide UnmarshalComposite, NormalFields, Encodable, ReadableFields, JudgeFields, PeekMessageType;
    var v := s.body;
    assert EncodeSection(s) == Encode(v);
    CompositeOutcome(v.code, v.fields, bs, i);
    StatePeek(v.code, v.fields, bs, i);
    ReadableCount(v.fields, Schema(s.code));
  }

  lemma {:induction false} ReadableCount(fs: seq<Value>, schema: seq<Field>)
    requires ReadableFields(fs, schema)
    ensures |fs| == |schema|
  {
  }

  lemma {:induction false} BodyOutcome(s: Section, bs: bytes, j: nat)
    requires ReadableSection(s) && s.code != HEADER && s.code != PROPERTIES && At(bs, j, Encode(s.body))
    ensures ReadBody(bs, j, s.code) == Told(JudgeSection(s), Normal(s.body), j + |Encode(s.body)|)
  {
    hide ReadField, ReadList, ReadAny, Encodable, Readable, Encode, Normal, Judge;
    var v := s.body;
    AtHead(bs, j, Encode(v));
    if v == Null {
      EncodeNull();
      NullNormal();
      JudgeNull(SectionMode(s.code));
    } else {
      HeadNotNull(v);
      if s.code == APPLICATION_PROPERTIES {
        FieldOutcome(KStringMap, v, bs, j);
      } else if s.code == DATA {
        FieldOutcome(KBinary, v, bs, j);
      } else if s.code == SEQUENCE {
        ListBodyOutcome(v, bs, j);
      } else if s.code == VALUE {
        ValueOutcome(v, bs, j);
      } else {
        FieldOutcome(KAnnotations, v, bs, j);
      }
    }
  }

  lemma {:induction false} NullNormal()
    ensures Normal(Null) == Null
  {
  }

  lemma {:induction false} ListBodyOutcome(v: Value, bs: bytes, j: nat)
    requires v.List? && Encodable(v) && Readable(v) && At(bs, j, Encode(v))
    ensures ReadList(bs, j) == Told(Judge(v, AnyKey), Normal(v), j + |Encode(v)|)
  {
    hide ReadList, Encode, Encodable, Readable;
    ListOutcome(v.items, bs, j);
  }

  lemma {:induction false} SectionHead(code: byte, bs: bytes, i: nat)
    requires At(bs, i, [0x00, 0x53, code])
    ensures PeekMessageType(bs, i) == Ok(code, i + 3)
  {
    hide FromBe;
    var q := bs[i..i + 3];
    assert bs[i] == q[0] && bs[i + 1] == q[1] && bs[i + 2] == q[2];
  }

  lemma {:induction false} SectionOutcome(s: Section, bs: bytes, i: nat)
    requires ReadableSection(s) && At(bs, i, EncodeSection(s))
    ensures ReadSection(bs, i) == Told(JudgeSection(s), NormalSection(s), i + |EncodeSection(s)|)
  {
    hide ReadSection, JudgeSection, NormalSection, EncodeSection, ReadableSection;
    if s.code == HEADER || s.code == PROPERTIES {
      CompositeSectionOutcome(s, bs, i);
    } else {
      PlainSectionOutcome(s, bs, i);
    }
  }

  lemma {:induction false} PlainSectionOutcome(s: Section, bs: bytes, i: nat)
    requires ReadableSection(s) && s.code != HEADER && s.code != PROPERTIES && At(bs, i, EncodeSection(s))
    ensures ReadSection(bs, i) == Told(JudgeSection(s), NormalSection(s), i + |EncodeSection(s)|)
  {
    hide ReadBody, ReadableSection, Normal, JudgeSection, Encode, Encodable, UnmarshalComposite, PeekMessageType;
    SectionCode(s);
    AtSplit(bs, i, [0x00, 0x53, s.code], Encode(s.body));
    SectionHead(s.code, bs, i);
    BodyOutcome(s, bs, i + 3);
  }

  lemma {:induction false} SectionCode(s: Section)
    requires ReadableSection(s)
    ensures IsSection(s.code) && Encodable(s.body)
  {
  }

  /** Any sequence of sections: all are read and stored in order, or the first bad key decides. */
  lemma {:induction false} SectionsOutcome(ss: seq<Section>, m: Message, bs: bytes, i: nat)
    requires ReadableSections(ss) && At(bs, i, EncodeSections(ss))
    requires i + |EncodeSections(ss)| == |bs|
    ensures ReadMessage(bs, i, m) == Told(JudgeSections(ss), ApplyAll(m, NormalSections(ss)), |bs|)
    decreases |ss|
  {
    hide ReadSection, Apply, NormalSection, ReadableSection, EncodeSection, JudgeSection, Encodable;
    if ss != [] {
      AtSplit(bs, i, EncodeSection(ss[0]), EncodeSections(ss[1..]));
      SectionOutcome(ss[0], bs, i);
      var s, rest := NormalSection(ss[0]), NormalSections(ss[1..]);
      assert ([s] + rest)[1..] == rest;
      SectionsOutcome(ss[1..], Apply(m, s), bs, i + |EncodeSection(ss[0])|);
    }
  }

  lemma {:induction false} FaithfulSectionFine(s: Section)
    requires FaithfulSection(s)
    ensures ReadableSection(s) && JudgeSection(s) == Fine
  {
    hide Faithful, FaithfulFields, Readable, ReadableFields, Encodable;
    if s.code == HEADER || s.code == PROPERTIES {
      FaithfulFieldsFine(s.body.fields, Schema(s.code), 0);
      FieldCount(s.body.fields, Schema(s.code));
    } else {
      FaithfulFine(s.body, SectionMode(s.code));
    }
  }

  lemma {:induction false} FieldCount(fs: seq<Value>, schema: seq<Field>)
    requires FaithfulFields(fs, schema)
    ensures |fs| == |schema|
  {
  }

  lemma {:induction false} FaithfulSectionsFine(ss: seq<Section>)
    requires FaithfulSections(ss)
    ensures ReadableSections(ss) && JudgeSections(ss) == Fine
  {
    hide FaithfulSection, ReadableSection, JudgeSection, Encodable;
    if ss != [] { FaithfulSectionsFine(ss[1..]); }
    forall k | 0 <= k < |ss| ensures ReadableSection(ss[k]) && Encodable(ss[k].body) && JudgeSection(ss[k]) == Fine {
      FaithfulSectionFine(ss[k]);
      SectionCode(ss[k]);
    }
  }

  lemma {:induction false} SectionsRoundTrip(ss: seq<Section>, m: Message, bs: bytes, i: nat)
    requires FaithfulSections(ss) && At(bs, i, EncodeSections(ss))
    requires i + |EncodeSections(ss)| == |bs|
    ensures ReadMessage(bs, i, m) == Ok(ApplyAll(m, NormalSections(ss)), |bs|)
  {
    hide ReadMessage, ApplyAll, NormalSections, FaithfulSection, ReadableSection, EncodeSections, JudgeSections;
    FaithfulSectionsFine(ss);
    SectionsOutcome(ss, m, bs, i);
  }

  // ---- keys in annotations -----------------------------------------------------------

  /** A section of annotations that would come back but for what its keys may be. */
  ghost predicate Annotated(s: Section) {
    && IsAnnotations(s.code) && s.body.Map? && Encodable(s.body)
    && forall e | e in s.body.entries :: Faithful(e.key) && Faithful(e.val)
  }

  predicate AllHashable(s: Section) {
    s.body.Map? ==> forall u | 0 <= u < |s.body.entries| :: Hashable(s.body.entries[u].key)
  }

  lemma {:induction false} AnnotatedVerdict(s: Section)
    requires Annotated(s)
    ensures ReadableSection(s) && JudgeSection(s) == if AllHashable(s) then Fine else Crash
  {
    hide Encodable, Faithful, Hashable, Judge, JudgeEntries;
    var es := s.body.entries;
    forall e | e in es ensures Readable(e.key) && Readable(e.val) {
      FaithfulFine(e.key, AnyKey);
      FaithfulFine(e.val, AnyKey);
    }
    var t := UnhashableOrNot(es, 0);
    JudgeFirst(es, 0, AnnotationKey, t);
    JudgeIsEntries(es, AnnotationKey);
    if t < |es| { assert !AllHashable(s); }
  }

  lemma {:induction false} JudgeIsEntries(es: seq<Entry>, mode: KeyMode)
    ensures Judge(Map(es), mode) == JudgeEntries(es, 0, mode)
  {
  }

  lemma {:induction false} MessageVerdict(ss: seq<Section>)
    requires forall k | 0 <= k < |ss| :: FaithfulSection(ss[k]) || Annotated(ss[k])
    ensures ReadableSections(ss)
    ensures JudgeSections(ss) ==
            if forall k | 0 <= k < |ss| && Annotated(ss[k]) :: AllHashable(ss[k]) then Fine else Crash
  {
    hide FaithfulSection, ReadableSection, JudgeSection, Annotated, AllHashable, Encodable;
    forall k | 0 <= k < |ss| ensures ReadableSection(ss[k]) && Encodable(ss[k].body) {
      if Annotated(ss[k]) { AnnotatedVerdict(ss[k]); } else { FaithfulSectionFine(ss[k]); }
      SectionCode(ss[k]);
    }
    if ss != [] {
      var rest := ss[1..];
      MessageVerdict(rest);
      if Annotated(ss[0]) { AnnotatedVerdict(ss[0]); } else { FaithfulSectionFine(ss[0]); }
      assert forall k | 0 <= k < |rest| :: rest[k] == ss[k + 1];
    }
  }

  /**
   A message that would come back but for its annotations' keys does so exactly when Go can hash
   every one of them; otherwise decoding it panics.
   */
  lemma {:induction false} MessageExact(ss: seq<Section>)
    requires forall k | 0 <= k < |ss| :: FaithfulSection(ss[k]) || Annotated(ss[k])
    ensures EncodableSections(ss)
    ensures var bs := EncodeSections(ss);
            Unmarshal(bs) ==
            if forall k | 0 <= k < |ss| && Annotated(ss[k]) :: AllHashable(ss[k])
            then Ok(ApplyAll(EMPTY, NormalSections(ss)), |bs|) else Panic
  {
    hide FaithfulSection, Annotated, AllHashable, EncodeSections, ReadMessage, ApplyAll, NormalSections, JudgeSections;
    MessageVerdict(ss);
    SectionsOutcome(ss, EMPTY, EncodeSections(ss), 0);
  }

  /** The shortest such message: one annotation, whose key is the empty list. */
  lemma {:induction false} ListKeyPanics()
    ensures Unmarshal([0x00, 0x53, 0x72, 0xc1, 3, 2, 0x45, 0x40]) == Panic
  {
    var bs: bytes := [0x00, 0x53, 0x72, 0xc1, 3, 2, 0x45, 0x40];
    assert ReadAny(bs, 6) == Ok(List([]), 7);
    assert ReadAny(bs, 7) == Ok(Null, 8);
    assert ReadMapHeader(bs, 3) == Ok(2, 6);
    assert ReadEntries(bs, 6, 2, AnnotationKey, []) == Panic;
    assert ReadSection(bs, 0) == Panic;
  }

  // ---- whole messages ----------------------------------------------------------------

  /** A message as it comes back: a value that is null is no value. */
  function NormalMessage(m: Message): (r: Message) {
    Message(Normal(m.header), Normal(m.deliveryAnnotations), Normal(m.annotations), Normal(m.properties),
            Normal(m.applicationProperties), m.data,
            if m.value.None? || m.value.value.Null? then None else Some(Normal(m.value.value)),
            NormalSequence(m.sequence), Normal(m.footer))
  }

  function NormalSequence(qs: seq<seq<Value>>): (r: seq<seq<Value>>) {
    if qs == [] then [] else [NormalItems(qs[0], 0)] + NormalSequence(qs[1..])
  }

  lemma {:induction false} NormalSectionsConcat(a: seq<Section>, b: seq<Section>)
    ensures NormalSections(a + b) == NormalSections(a) + NormalSections(b)
  {
    if a == [] {
      assert a + b == b;
    } else {
      assert (a + b)[1..] == a[1..] + b;
      NormalSectionsConcat(a[1..], b);
    }
  }

  lemma {:induction false} ApplyAllConcat(m: Message, a: seq<Section>, b: seq<Section>)
    ensures ApplyAll(m, a + b) == ApplyAll(ApplyAll(m, a), b)
    decreases |a|
  {
    hide Apply;
    if a == [] {
      assert a + b == b;
    } else {
      assert (a + b)[1..] == a[1..] + b;
      ApplyAllConcat(Apply(m, a[0]), a[1..], b);
    }
  }

  /** Storing sections group by group. */
  ghost function Store(m: Message, ss: seq<Section>): (r: Message) {
    ApplyAll(m, NormalSections(ss))
  }

  lemma {:induction false} StoreConcat(m: Message, a: seq<Section>, b: seq<Section>)
    ensures Store(m, a + b) == Store(Store(m, a), b)
  {
    NormalSectionsConcat(a, b);
    ApplyAllConcat(m, NormalSections(a), NormalSections(b));
  }

  lemma {:induction false} StoreOne(m: Message, s: Section)
    ensures Store(m, [s]) == Apply(m, NormalSection(s))
  {
    hide Apply, Normal;
    var x := NormalSection(s);
    assert [s][1..] == [];
    assert NormalSections([s]) == [x] + NormalSections([]) == [x];
    assert [x][1..] == [];
    assert ApplyAll(m, [x]) == ApplyAll(Apply(m, x), []);
  }

  lemma {:induction false} StoreOptional(m: Message, code: byte, v: Value)
    ensures Store(m, Optional(code, v)) == if v == Null then m else Apply(m, Section(code, Normal(v)))
  {
    hide Apply, Normal;
    if v == Null {
      assert Store(m, []) == m;
    } else {
      StoreOne(m, Section(code, v));
    }
  }

  lemma {:induction false} StoreData(m: Message, ds: seq<bytes>)
    ensures Store(m, DataSections(ds)) == m.(data := m.data + ds)
    decreases |ds|
  {
    if ds == [] {
      assert m.data + ds == m.data;
    } else {
      var s := Section(DATA, Var(Binary, ds[0]));
      StoreOptional(m, DATA, s.body);
      StoreConcat(m, [s], DataSections(ds[1..]));
      StoreData(m.(data := m.data + [ds[0]]), ds[1..]);
      assert m.data + [ds[0]] + ds[1..] == m.data + ds;
    }
  }

  lemma {:induction false} StoreSequence(m: Message, qs: seq<seq<Value>>)
    ensures Store(m, SequenceSections(qs)) == m.(sequence := m.sequence + NormalSequence(qs))
    decreases |qs|
  {
    if qs == [] {
      assert m.sequence + [] == m.sequence;
    } else {
      var s := Section(SEQUENCE, List(qs[0]));
      StoreOptional(m, SEQUENCE, s.body);
      StoreConcat(m, [s], SequenceSections(qs[1..]));
      var items := NormalItems(qs[0], 0);
      StoreSequence(m.(sequence := m.sequence + [items]), qs[1..]);
      assert m.sequence + [items] + NormalSequence(qs[1..]) == m.sequence + NormalSequence(qs);
    }
  }

  /** Map sections never turn into Null. */
  ghost predicate MapOrNull(v: Value) {
    v.Null? || v.Map?
  }

  lemma {:induction false} StoreNext(g: seq<Section>, code: byte, v: Value)
    requires code == HEADER || code == PROPERTIES || MapOrNull(v)
    ensures Store(EMPTY, g + Optional(code, v)) == Apply(Store(EMPTY, g), Section(code, Normal(v)))
         || (v == Null && Store(EMPTY, g + Optional(code, v)) == Store(EMPTY, g))
    ensures Normal(v).Null? <==> v == Null
  {
    StoreConcat(EMPTY, g, Optional(code, v));
    StoreOptional(Store(EMPTY, g), code, v);
  }

  lemma {:induction false} StorePreamble(m: Message)
    requires MapOrNull(m.deliveryAnnotations) && MapOrNull(m.annotations) && MapOrNull(m.applicationProperties)
    ensures Store(EMPTY, Preamble(m)) ==
            EMPTY.(header := Normal(m.header), deliveryAnnotations := Normal(m.deliveryAnnotations),
                   annotations := Normal(m.annotations), properties := Normal(m.properties),
                   applicationProperties := Normal(m.applicationProperties))
  {
    hide Store, Optional, Normal;
    var g1 := Optional(HEADER, m.header);
    var g2 := g1 + Optional(DELIVERY_ANNOTATIONS, m.deliveryAnnotations);
    var g3 := g2 + Optional(ANNOTATIONS, m.annotations);
    var g4 := g3 + Optional(PROPERTIES, m.properties);
    StoreNothing();
    assert [] + g1 == g1;
    StoreNext([], HEADER, m.header);
    StoreNext(g1, DELIVERY_ANNOTATIONS, m.deliveryAnnotations);
    StoreNext(g2, ANNOTATIONS, m.annotations);
    StoreNext(g3, PROPERTIES, m.properties);
    StoreNext(g4, APPLICATION_PROPERTIES, m.applicationProperties);
  }

  lemma {:induction false} StoreNothing()
    ensures Store(EMPTY, []) == EMPTY
  {
  }

  lemma {:induction false} StoreAll(m: Message)
    requires MapOrNull(m.deliveryAnnotations) && MapOrNull(m.annotations)
    requires MapOrNull(m.applicationProperties) && MapOrNull(m.footer)
    ensures Store(EMPTY, SectionsOf(m)) == NormalMessage(m)
  {
    hide Store, DataSections, SequenceSections, NormalSequence, Optional, Normal;
    var n := NormalMessage(m);
    var g5 := Preamble(m);
    var g6 := g5 + DataSections(m.data);
    var value := if m.value.Some? then [Section(VALUE, m.value.value)] else [];
    var g7 := g6 + value;
    var g8 := g7 + SequenceSections(m.sequence);
    StorePreamble(m);
    var s5 := Store(EMPTY, g5);
    StoreConcat(EMPTY, g5, DataSections(m.data));
    StoreData(s5, m.data);
    var s6 := s5.(data := n.data);
    assert Store(EMPTY, g6) == s6;
    StoreConcat(EMPTY, g6, value);
    StoreValue(s6, m.value);
    var s7 := s6.(value := n.value);
    assert Store(EMPTY, g7) == s7;
    StoreConcat(EMPTY, g7, SequenceSections(m.sequence));
    StoreSequence(s7, m.sequence);
    assert Store(EMPTY, g8) == s7.(sequence := n.sequence);
    StoreNext(g8, FOOTER, m.footer);
    assert SectionsOf(m) == g8 + Optional(FOOTER, m.footer);
  }

  lemma {:induction false} StoreValue(m: Message, value: Option<Value>)
    requires m.value.None?
    ensures Store(m, if value.Some? then [Section(VALUE, value.value)] else [])
         == m.(value := if value.None? || value.value.Null? then None else Some(Normal(value.value)))
  {
    if value.Some? {
      StoreOne(m, Section(VALUE, value.value));
    } else {
      assert Store(m, []) == m;
    }
  }

  /** A message of any shape, marshaled and unmarshaled, is the same message in normal form. */
  lemma {:induction false} MessageRoundTrip(m: Message)
    requires FaithfulSections(SectionsOf(m))
    requires MapOrNull(m.deliveryAnnotations) && MapOrNull(m.annotations)
    requires MapOrNull(m.applicationProperties) && MapOrNull(m.footer)
    ensures var bs := EncodeSections(SectionsOf(m));
            Unmarshal(bs) == Ok(NormalMessage(m), |bs|)
  {
    hide SectionsOf, FaithfulSection, EncodeSections, ReadMessage, NormalMessage;
    var bs := EncodeSections(SectionsOf(m));
    SectionsRoundTrip(SectionsOf(m), EMPTY, bs, 0);
    StoreAll(m);
  }
}
