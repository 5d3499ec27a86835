/**
 Messages on the wire, with the section numbers of the AMQP Messaging part: whatever way a peer
 writes its sections, each ends up in its place, and what is written here has the standard's layout.
 */
module Sections {
  import opened Words
  import opened Values
  import opened Decoder
  import opened RoundTrip
  import opened Messages
  import opened Spelling
  import opened Conformance

  // ---- reading -----------------------------------------------------------------------

  /** One section: header and properties are composites, the others a descriptor and a value. */
  datatype SectionF = SectionF(wideCode: bool, number: byte, body: Form)

  predicate IsHeader(s: SectionF) { s.number == 0x70 }
  predicate IsProperties(s: SectionF) { s.number == 0x73 }

  function SectionBytes(s: SectionF): (r: bytes)
    ensures |r| >= 1
  {
    if IsHeader(s) || IsProperties(s) then Bytes(s.body) else Descriptor(s.wideCode, s.number) + Bytes(s.body)
  }

  ghost predicate ProperFields(t: Form) {
    && t.CompositeF? && Typed(t.fields, Standard(t.ctype)) && Complete(t.fields, Standard(t.ctype))
    && (forall x | x in t.fields :: Proper(x)) && FieldListFits(t.list, |t.fields|, ItemBytes(t.fields, 0))
  }

  /** The body has the section's type; any section but header and properties may hold null. */
  ghost predicate ProperSection(s: SectionF) {
    if IsHeader(s) || IsProperties(s) then ProperFields(s.body) && s.body.ctype == s.number
    else
      && 0x71 <= s.number <= 0x78 && Proper(s.body)
      && (s.body != NullF ==>
            && (s.number == 0x71 || s.number == 0x72 || s.number == 0x78 ==> s.body.MapF?)
            && (s.number == 0x74 ==> s.body.MapF? && StringKeys(s.body.pairs))
            && (s.number == 0x75 ==> s.body.VarF? && IsBinary(s.body.vcode))
            && (s.number == 0x76 ==> s.body.List0F? || s.body.ListF?))
  }

  /** Where each section belongs; data and sequence sections accumulate. */
  function Place(m: Message, s: SectionF): (r: Message) {
    var v := Meaning(s.body);
    match s.number
    case 0x70 => m.(header := v)
    case 0x71 => if v == Null then m else m.(deliveryAnnotations := v)
    case 0x72 => if v == Null then m else m.(annotations := v)
    case 0x73 => m.(properties := v)
    case 0x74 => if v == Null then m else m.(applicationProperties := v)
    case 0x75 => m.(data := m.data + [if v.Var? then v.s else []])
    case 0x76 => m.(sequence := m.sequence + [if v.List? then v.items else []])
    case 0x77 => if v == Null then m else m.(value := Some(v))
    case 0x78 => if v == Null then m else m.(footer := v)
    case _ => m
  }

  function PlaceAll(m: Message, ss: seq<SectionF>): (r: Message)
    decreases |ss|
  {
    if ss == [] then m else PlaceAll(Place(m, ss[0]), ss[1..])
  }

  function AllBytes(ss: seq<SectionF>): (r: bytes) {
    if ss == [] then [] else SectionBytes(ss[0]) + AllBytes(ss[1..])
  }

  lemma {:induction false} CompositeSectionSpelled(s: SectionF, bs: bytes, i: nat)
    requires (IsHeader(s) || IsProperties(s)) && ProperSection(s) && At(bs, i, SectionBytes(s))
    ensures ReadSection(bs, i) == Ok(Section(s.number, Meaning(s.body)), i + |SectionBytes(s)|)
  {
    hide UnmarshalComposite, PeekMessageType, PeekDescriptor, Standard, Filled, FieldList, FieldListFits, ItemBytes, Complete,
      ReadNum, Proper, ReadBody;
    var t := s.body;
    TypedSize(t.fields, Standard(t.ctype));
    CompositeSpelled(t.wideCode, t.ctype, t.list, t.fields, bs, i);
    AtSplit(bs, i, Descriptor(t.wideCode, t.ctype), FieldList(t.list, |t.fields|, ItemBytes(t.fields, 0)));
    DescriptorSpelled(t.wideCode, t.ctype, bs, i);
  }

  lemma {:induction false} BodySpelled(s: SectionF, bs: bytes, j: nat)
    requires !IsHeader(s) && !IsProperties(s) && ProperSection(s) && At(bs, j, Bytes(s.body))
    ensures ReadBody(bs, j, s.number) == Ok(Meaning(s.body), j + |Bytes(s.body)|)
  {
    hide ReadAny, ReadList, ReadField, Bytes, Meaning, Proper;
    var t := s.body;
    HeadIs(t);
    AtHead(bs, j, Bytes(t));
    if t == NullF {
      NullBytes();
      NullMeans();
    } else if s.number == 0x74 {
      FieldSpelled(KStringMap, t, bs, j);
      PlainField(KStringMap, t);
    } else if s.number == 0x75 {
      FieldSpelled(KBinary, t, bs, j);
      PlainField(KBinary, t);
    } else if s.number == 0x76 {
      ListBodySpelled(t, bs, j);
    } else if s.number == 0x77 {
      AnySpelled(t, bs, j);
    } else {
      FieldSpelled(KAnnotations, t, bs, j);
      PlainField(KAnnotations, t);
    }
  }

  lemma {:induction false} NullMeans()
    ensures Meaning(NullF) == Null
  {
  }

  lemma {:induction false} PlainField(kind: Kind, t: Form)
    requires kind != KMillis && kind != KSymbols
    ensures FieldMeaning(kind, t) == Meaning(t)
  {
    hide Meaning;
  }

  lemma {:induction false} ListBodySpelled(t: Form, bs: bytes, j: nat)
    requires (t.List0F? || t.ListF?) && Proper(t) && At(bs, j, Bytes(t))
    ensures ReadList(bs, j) == Ok(Meaning(t), j + |Bytes(t)|)
  {
    hide ReadList, Meanings, ItemBytes;
    if t.List0F? {
      AtHead(bs, j, Bytes(t));
      EmptyListAt(bs, j);
    } else {
      ListSpelled(t.wide, t.items, bs, j);
    }
  }

  lemma {:induction false} SectionSpelled(s: SectionF, bs: bytes, i: nat)
    requires ProperSection(s) && At(bs, i, SectionBytes(s))
    ensures ReadSection(bs, i) == Ok(Section(s.number, Meaning(s.body)), i + |SectionBytes(s)|)
  {
    hide Bytes, Meaning, Proper, ProperFields, ReadBody, UnmarshalComposite, PeekMessageType, PeekDescriptor, ReadNum;
    if IsHeader(s) || IsProperties(s) {
      CompositeSectionSpelled(s, bs, i);
    } else {
      var d := Descriptor(s.wideCode, s.number);
      AtSplit(bs, i, d, Bytes(s.body));
      DescriptorSpelled(s.wideCode, s.number, bs, i);
      BodySpelled(s, bs, i + |d|);
    }
  }

  lemma {:induction false} PlacedRight(m: Message, s: SectionF)
    requires ProperSection(s)
    ensures Apply(m, Section(s.number, Meaning(s.body))) == Place(m, s)
  {
    hide Meaning, ProperFields, Proper;
  }

  lemma {:induction false} SectionsSpelled(ss: seq<SectionF>, m: Message, bs: bytes, i: nat)
    requires (forall k | 0 <= k < |ss| :: ProperSection(ss[k])) && At(bs, i, AllBytes(ss)) && i + |AllBytes(ss)| == |bs|
    ensures ReadMessage(bs, i, m) == Ok(PlaceAll(m, ss), |bs|)
    decreases |ss|
  {
    hide ProperSection, SectionBytes, ReadSection, Place, Apply, Meaning;
    if ss != [] {
      var s := ss[0];
      assert ProperSection(s);
      AtSplit(bs, i, SectionBytes(s), AllBytes(ss[1..]));
      SectionSpelled(s, bs, i);
      PlacedRight(m, s);
      SectionsSpelled(ss[1..], Place(m, s), bs, i + |SectionBytes(s)|);
    }
  }

  /** A message of any sections, each written in any way, is read with every section in its place. */
  lemma {:induction false} MessageSpelled(ss: seq<SectionF>)
    requires forall k | 0 <= k < |ss| :: ProperSection(ss[k])
    ensures Unmarshal(AllBytes(ss)) == Ok(PlaceAll(EMPTY, ss), |AllBytes(ss)|)
  {
    hide ProperSection, ReadMessage, AllBytes, PlaceAll;
    SectionsSpelled(ss, EMPTY, AllBytes(ss), 0);
  }

  // ---- writing -----------------------------------------------------------------------

  ghost function Part(number: byte, v: Value): (s: bytes)
    requires Encodable(v)
  {
    if v == Null then [] else [0x00, 0x53, number] + Encode(v)
  }

  ghost function DataPart(ds: seq<bytes>): (s: bytes)
    requires forall k | 0 <= k < |ds| :: Encodable(Var(Binary, ds[k]))
  {
    if ds == [] then [] else [0x00, 0x53, 0x75] + Encode(Var(Binary, ds[0])) + DataPart(ds[1..])
  }

  ghost function SequencePart(qs: seq<seq<Value>>): (s: bytes)
    requires forall k | 0 <= k < |qs| :: Encodable(List(qs[k]))
  {
    if qs == [] then [] else [0x00, 0x53, 0x76] + Encode(List(qs[0])) + SequencePart(qs[1..])
  }

  /** Header and properties carry their own descriptors. */
  ghost function OwnPart(v: Value): (s: bytes)
    requires Encodable(v)
  {
    if v == Null then [] else Encode(v)
  }

  ghost predicate AllEncodable(m: Message) {
    && Encodable(m.header) && Encodable(m.deliveryAnnotations) && Encodable(m.annotations) && Encodable(m.properties)
    && Encodable(m.applicationProperties) && Encodable(m.footer) && (m.value.Some? ==> Encodable(m.value.value))
    && (forall k | 0 <= k < |m.data| :: Encodable(Var(Binary, m.data[k])))
    && (forall k | 0 <= k < |m.sequence| :: Encodable(List(m.sequence[k])))
  }

  lemma {:induction false} EncodeJoin(a: seq<Section>, b: seq<Section>)
    requires EncodableSections(a) && EncodableSections(b)
    ensures EncodableSections(a + b) && EncodeSections(a + b) == EncodeSections(a) + EncodeSections(b)
  {
    hide Encode, Encodable, EncodeSection;
    if a == [] {
      assert a + b == b;
    } else {
      assert (a + b)[1..] == a[1..] + b;
      EncodeJoin(a[1..], b);
    }
  }

  lemma {:induction false} OptionalPart(code: byte, v: Value)
    requires Encodable(v)
    ensures EncodableSections(Optional(code, v))
    ensures EncodeSections(Optional(code, v)) == if code == 0x70 || code == 0x73 then OwnPart(v) else Part(code, v)
  {
    hide Encode, Encodable;
    if v != Null { OneSection(Section(code, v)); }
  }

  lemma {:induction false} OneSection(s: Section)
    requires Encodable(s.body)
    ensures EncodableSections([s]) && EncodeSections([s]) == EncodeSection(s)
  {
    hide Encodable, EncodeSection;
    assert [s][1..] == [];
  }

  lemma {:induction false} DataIs(ds: seq<bytes>)
    requires forall k | 0 <= k < |ds| :: Encodable(Var(Binary, ds[k]))
    ensures EncodableSections(DataSections(ds)) && EncodeSections(DataSections(ds)) == DataPart(ds)
  {
    hide Encode, Encodable;
    if ds != [] {
      DataIs(ds[1..]);
      var s := Section(0x75, Var(Binary, ds[0]));
      OneSection(s);
      EncodeJoin([s], DataSections(ds[1..]));
    }
  }

  lemma {:induction false} SequenceIs(qs: seq<seq<Value>>)
    requires forall k | 0 <= k < |qs| :: Encodable(List(qs[k]))
    ensures EncodableSections(SequenceSections(qs)) && EncodeSections(SequenceSections(qs)) == SequencePart(qs)
  {
    hide Encode, Encodable;
    if qs != [] {
      SequenceIs(qs[1..]);
      var s := Section(0x76, List(qs[0]));
      OneSection(s);
      EncodeJoin([s], SequenceSections(qs[1..]));
    }
  }

  /** The layout of a message: the sections in the order of the standard, each behind its number. */
  lemma {:induction false} MessageLayout(m: Message)
    requires AllEncodable(m)
    ensures EncodableSections(SectionsOf(m))
    ensures EncodeSections(SectionsOf(m)) ==
            OwnPart(m.header) + Part(0x71, m.deliveryAnnotations) + Part(0x72, m.annotations) + OwnPart(m.properties)
            + Part(0x74, m.applicationProperties) + DataPart(m.data)
            + (if m.value.Some? then [0x00, 0x53, 0x77] + Encode(m.value.value) else [])
            + SequencePart(m.sequence) + Part(0x78, m.footer)
  {
    hide Encode, Encodable, EncodeSections, EncodeSection, Optional, DataSections, SequenceSections, DataPart, SequencePart,
      Part, OwnPart, EncodableSections;
    OptionalPart(0x70, m.header);
    OptionalPart(0x71, m.deliveryAnnotations);
    OptionalPart(0x72, m.annotations);
    OptionalPart(0x73, m.properties);
    OptionalPart(0x74, m.applicationProperties);
    OptionalPart(0x78, m.footer);
    DataIs(m.data);
    SequenceIs(m.sequence);
    var value := if m.value.Some? then [Section(VALUE, m.value.value)] else [];
    ValuePart(m.value);
    var a := Optional(HEADER, m.header);
    var b := a + Optional(DELIVERY_ANNOTATIONS, m.deliveryAnnotations);
    EncodeJoin(a, Optional(DELIVERY_ANNOTATIONS, m.deliveryAnnotations));
    var c := b + Optional(ANNOTATIONS, m.annotations);
    EncodeJoin(b, Optional(ANNOTATIONS, m.annotations));
    var d := c + Optional(PROPERTIES, m.properties);
    EncodeJoin(c, Optional(PROPERTIES, m.properties));
    EncodeJoin(d, Optional(APPLICATION_PROPERTIES, m.applicationProperties));
    var e := Preamble(m);
    EncodeJoin(e, DataSections(m.data));
    var f := e + DataSections(m.data);
    EncodeJoin(f, value);
    var g := f + value;
    EncodeJoin(g, SequenceSections(m.sequence));
    EncodeJoin(g + SequenceSections(m.sequence), Optional(FOOTER, m.footer));
  }

  lemma {:induction false} ValuePart(v: Option<Value>)
    requires v.Some? ==> Encodable(v.value)
    ensures var ss := if v.Some? then [Section(0x77, v.value)] else [];
            && EncodableSections(ss)
            && EncodeSections(ss) == if v.Some? then [0x00, 0x53, 0x77] + Encode(v.value) else []
  {
    hide Encode, Encodable;
    if v.Some? { OneSection(Section(0x77, v.value)); }
  }
}
