/**
 What it takes to panic, on any bytes at all: behind the code of some map, a value that Go cannot
 hash. Input without one is decoded or refused.
 */
module Panics {
  import opened Words
  import opened Values
  import opened Decoder
  import opened Messages
  import opened Frames

  predicate MapCode(c: byte) {
    c == 0xc1 || c == 0xd1
  }

  /** A map code at m, and behind it, at k, a value that cannot be a key. */
  predicate BadKey(bs: bytes, i: nat, m: nat, k: nat) {
    i <= m < k < |bs| && MapCode(bs[m]) && ReadAny(bs, k).Ok? && !Hashable(ReadAny(bs, k).val)
  }

  lemma {:induction false} AnyPanics(bs: bytes, i: nat) returns (m: nat, k: nat)
    requires ReadAny(bs, i).Panic?
    ensures BadKey(bs, i, m, k)
    decreases |bs| - i, 2, 0
  {
    hide BadKey, ReadList, ReadMap, ReadComposite;
    var c := bs[i];
    if c == 0x00 {
      m, k := CompositePanics(bs, i);
    } else if MapCode(c) {
      m, k := MapPanics(bs, i, AnyKey);
    } else {
      m, k := ListPanics(bs, i);
    }
  }

  lemma {:induction false} ListPanics(bs: bytes, i: nat) returns (m: nat, k: nat)
    requires ReadList(bs, i).Panic?
    ensures BadKey(bs, i, m, k)
    decreases |bs| - i, 1, 0
  {
    hide ReadItems, ReadListHeader;
    var header := ReadListHeader(bs, i);
    m, k := ItemsPanic(bs, header.next, header.val);
  }

  lemma {:induction false} ItemsPanic(bs: bytes, i: nat, n: nat) returns (m: nat, k: nat)
    requires ReadItems(bs, i, n).Panic?
    ensures BadKey(bs, i, m, k)
    decreases |bs| - i, 4, n
  {
    hide ReadAny;
    var v := ReadAny(bs, i);
    if v.Panic? {
      m, k := AnyPanics(bs, i);
    } else {
      m, k := ItemsPanic(bs, v.next, n - 1);
    }
  }

  lemma {:induction false} MapPanics(bs: bytes, i: nat, mode: KeyMode) returns (m: nat, k: nat)
    requires ReadMap(bs, i, mode).Panic?
    ensures BadKey(bs, i, m, k)
    decreases |bs| - i, 1, 0
  {
    hide ReadEntries, ReadAny;
    var header := ReadMapHeader(bs, i);
    assert MapCode(bs[i]);
    m, k := EntriesPanic(bs, header.next, header.val, mode, [], i);
    assert i <= m;
  }

  /** Either a key at this level is to blame, or something further in. */
  lemma {:induction false} EntriesPanic(bs: bytes, i: nat, count: nat, mode: KeyMode, acc: seq<Entry>, start: nat)
    returns (m: nat, k: nat)
    requires ReadEntries(bs, i, count, mode, acc).Panic? && start < i && start < |bs| && MapCode(bs[start])
    ensures BadKey(bs, start, m, k)
    decreases |bs| - i, 4, count
  {
    hide ReadAny, ReadString, Hashable, Insert;
    var key := if mode.StringKey? then ReadString(bs, i) else ReadAny(bs, i);
    if key.Panic? {
      m, k := AnyPanics(bs, i);
    } else {
      var val := ReadAny(bs, key.next);
      if val.Panic? {
        m, k := AnyPanics(bs, key.next);
      } else if KeyOutcome(mode, key.val).Panic? {
        m, k := start, i;
      } else {
        m, k := EntriesPanic(bs, val.next, if count == 1 then 0 else count - 2, mode,
                             Insert(acc, key.val, val.val), start);
      }
    }
  }

  lemma {:induction false} CompositePanics(bs: bytes, i: nat) returns (m: nat, k: nat)
    requires i < |bs| && bs[i] == 0x00 && ReadComposite(bs, i).Panic?
    ensures BadKey(bs, i, m, k)
    decreases |bs| - i, 1, 0
  {
    hide UnmarshalComposite, ReadAny, BadKey;
    var d := PeekDescriptor(bs, i).value;
    if d < 256 && Nested(d) {
      m, k := UnmarshalPanics(bs, i, d);
    } else {
      var first := ReadAny(bs, i + 1);
      var j := if first.Panic? then i + 1 else first.next;
      m, k := AnyPanics(bs, j);
      Earlier(bs, i, j, m, k);
    }
  }

  lemma {:induction false} Earlier(bs: bytes, i: nat, j: nat, m: nat, k: nat)
    requires i <= j
    ensures BadKey(bs, j, m, k) ==> BadKey(bs, i, m, k)
  {
    hide ReadAny, Hashable;
  }

  lemma {:induction false} UnmarshalPanics(bs: bytes, i: nat, code: byte) returns (m: nat, k: nat)
    requires UnmarshalComposite(bs, i, code).Panic?
    ensures BadKey(bs, i, m, k)
    decreases |bs| - i, 0, 0
  {
    hide ReadFields, ReadAny, ReadNum, ReadListHeader, Schema;
    var d := ReadNum(bs, i + 1);
    var header := ReadListHeader(bs, d.next);
    m, k := FieldsPanic(bs, header.next, Schema(code), 0, header.val);
  }

  lemma {:induction false} FieldsPanic(bs: bytes, i: nat, schema: seq<Field>, k: nat, n: nat) returns (m: nat, p: nat)
    requires k <= |schema| && ReadFields(bs, i, schema, k, n).Panic?
    ensures BadKey(bs, i, m, p)
    decreases |bs| - i, 4, |schema| - k
  {
    hide ReadField, ReadAny;
    if k >= n {
      m, p := FieldsPanic(bs, i, schema, k + 1, n);
    } else if i < |bs| && bs[i] == 0x40 {
      m, p := FieldsPanic(bs, i + 1, schema, k + 1, n);
    } else {
      var v := ReadField(bs, i, schema[k].kind);
      if v.Panic? {
        m, p := FieldPanics(bs, i, schema[k].kind);
      } else {
        m, p := FieldsPanic(bs, v.next, schema, k + 1, n);
      }
    }
  }

  lemma {:induction false} FieldPanics(bs: bytes, i: nat, kind: Kind) returns (m: nat, k: nat)
    requires ReadField(bs, i, kind).Panic?
    ensures BadKey(bs, i, m, k)
    decreases |bs| - i, 3, 0
  {
    hide ReadAny, ReadMap, UnmarshalComposite, BadKey;
    match kind {
      case KAny => m, k := AnyPanics(bs, i);
      case KStringMap => m, k := MapPanics(bs, i, StringKey);
      case KAnnotations => m, k := MapPanics(bs, i, AnnotationKey);
      case KError => m, k := UnmarshalPanics(bs, i, ERROR);
      case KState => m, k := UnmarshalPanics(bs, i, PeekMessageType(bs, i).val);
      case _ => assert false;
    }
  }

  // ---- messages and frames -----------------------------------------------------------

  /** No map code is followed by a value that cannot be a key. */
  ghost predicate NoBadKey(bs: bytes) {
    forall m: nat, k: nat :: !BadKey(bs, 0, m, k)
  }

  lemma {:induction false} SectionPanics(bs: bytes, i: nat) returns (m: nat, k: nat)
    requires ReadSection(bs, i).Panic?
    ensures BadKey(bs, i, m, k)
  {
    hide UnmarshalComposite, ReadField, ReadList, ReadAny, BadKey;
    var code := PeekMessageType(bs, i);
    if code.val == HEADER || code.val == PROPERTIES {
      m, k := UnmarshalPanics(bs, i, code.val);
    } else {
      var j := code.next;
      if code.val == APPLICATION_PROPERTIES {
        m, k := FieldPanics(bs, j, KStringMap);
      } else if code.val == DATA {
        m, k := FieldPanics(bs, j, KBinary);
      } else if code.val == SEQUENCE {
        m, k := ListPanics(bs, j);
      } else if code.val == VALUE {
        m, k := AnyPanics(bs, j);
      } else {
        m, k := FieldPanics(bs, j, KAnnotations);
      }
      Earlier(bs, i, j, m, k);
    }
  }

  lemma {:induction false} MessagePanics(bs: bytes, i: nat, x: Message) returns (m: nat, k: nat)
    requires ReadMessage(bs, i, x).Panic?
    ensures BadKey(bs, i, m, k)
    decreases |bs| - i
  {
    hide ReadSection, BadKey, Apply;
    var s := ReadSection(bs, i);
    if s.Panic? {
      m, k := SectionPanics(bs, i);
    } else {
      m, k := MessagePanics(bs, s.next, Apply(x, s.val));
      Earlier(bs, i, s.next, m, k);
    }
  }

  /** Whatever arrives: a message is decoded or refused, and never panics, if it holds no such key. */
  lemma {:induction false} UnmarshalSafe(bs: bytes)
    requires NoBadKey(bs)
    ensures !Unmarshal(bs).Panic?
  {
    hide BadKey, ReadMessage;
    if Unmarshal(bs).Panic? {
      var m, k := MessagePanics(bs, 0, EMPTY);
    }
  }

  /** And so is a frame body. */
  lemma {:induction false} ParseSafe(bs: bytes)
    requires NoBadKey(bs)
    ensures !ParseBody(bs).Panic?
  {
    hide BadKey, UnmarshalComposite, FromFields;
    if ParseBody(bs).Panic? {
      var m, k := UnmarshalPanics(bs, 0, bs[2]);
    }
  }
}
