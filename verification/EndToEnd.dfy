/** From a message on one side to the same message on the other, over a byte stream cut anywhere. */
module EndToEnd {
  import opened Words
  import opened Values
  import opened Decoder
  import opened RoundTrip
  import opened Buffers
  import opened Framing
  import opened Frames
  import opened Messages
  import opened Delivery

  /** A message to send, with what send puts around it. */
  datatype Parcel = Parcel(out: Outgoing, message: Message)

  ghost predicate Marshalable(m: Message) {
    && FaithfulSections(SectionsOf(m))
    && MapOrNull(m.deliveryAnnotations) && MapOrNull(m.annotations)
    && MapOrNull(m.applicationProperties) && MapOrNull(m.footer)
  }

  /** A message send accepts and does not send as nothing: an empty message makes no transfer. */
  ghost predicate Good(p: Parcel, r: Rx) {
    && Marshalable(p.message) && 0 < |p.out.tag| <= MAX_TAG
    && SectionsOf(p.message) != [] && FitsReceiver(r, EncodeSections(SectionsOf(p.message)))
  }

  ghost function Item(p: Parcel, peerMax: nat): (x: Sending)
    requires Marshalable(p.message) && peerMax > MAX_TRANSFER_HEADER
  {
    Sending(p.out, EncodeSections(SectionsOf(p.message)), peerMax - MAX_TRANSFER_HEADER)
  }

  ghost function Items(ps: seq<Parcel>, peerMax: nat, r: Rx): (xs: seq<Sending>)
    requires peerMax > MAX_TRANSFER_HEADER && forall k | 0 <= k < |ps| :: Good(ps[k], r)
  {
    if ps == [] then [] else assert Good(ps[0], r); [Item(ps[0], peerMax)] + Items(ps[1..], peerMax, r)
  }

  /** What the receiver holds after the parcels, ids counting on from id. */
  function Arrived(r: Rx, ps: seq<Parcel>, id: uint32): (s: Rx)
    decreases |ps|
  {
    if ps == [] then r
    else Arrived(Delivered(r, ps[0].out, id, NormalMessage(ps[0].message)), ps[1..], Add32(id, 1))
  }

  lemma {:induction false} ItemDecodes(p: Parcel, peerMax: nat, r: Rx)
    requires Good(p, r) && peerMax > MAX_TRANSFER_HEADER
    ensures var x := Item(p, peerMax);
            && Decodable(x) && FitsReceiver(r, x.data)
            && Unmarshal(x.data) == Ok(NormalMessage(p.message), |x.data|)
  {
    hide Unmarshal, NormalMessage, FaithfulSection, EncodableSections, SectionsOf;
    MessageRoundTrip(p.message);
    EncodedNonEmpty(SectionsOf(p.message));
  }

  lemma {:induction false} EncodedNonEmpty(ss: seq<Section>)
    requires EncodableSections(ss) && ss != []
    ensures EncodeSections(ss) != []
  {
    hide Encode, Encodable;
  }

  lemma {:induction false} ItemsDecode(ps: seq<Parcel>, peerMax: nat, r: Rx, s: Rx, id: uint32)
    requires peerMax > MAX_TRANSFER_HEADER && forall k | 0 <= k < |ps| :: Good(ps[k], r)
    ensures var xs := Items(ps, peerMax, r);
            && |xs| == |ps|
            && (forall k | 0 <= k < |xs| :: Decodable(xs[k]) && FitsReceiver(r, xs[k].data))
            && AllDelivered(s, xs, id) == Arrived(s, ps, id)
    decreases |ps|
  {
    hide Decodable, FitsReceiver, Unmarshal, NormalMessage, Good, Delivered;
    if ps != [] {
      assert Good(ps[0], r);
      ItemDecodes(ps[0], peerMax, r);
      ItemsDecode(ps[1..], peerMax, r, Delivered(s, ps[0].out, id, NormalMessage(ps[0].message)), Add32(id, 1));
      var xs := Items(ps, peerMax, r);
      assert xs[1..] == Items(ps[1..], peerMax, r);
      forall k | 0 <= k < |xs| ensures Decodable(xs[k]) && FitsReceiver(r, xs[k].data) {
        if k > 0 { assert xs[k] == xs[1..][k - 1]; }
      }
    }
  }

  /** writeFrame lets a transfer through, and a reader will take the frame. */
  ghost predicate Written(t: Transfer, peerMax: nat) {
    SentShape(t) && FaithfulBody(TransferBody(t)) && FrameSize(t) <= peerMax
  }

  ghost predicate AllWritten(ts: seq<Transfer>, peerMax: nat) {
    forall k | 0 <= k < |ts| :: Written(ts[k], peerMax)
  }

  ghost function Wire(ts: seq<Transfer>, channel: uint16, peerMax: nat): (fs: seq<RawFrame>)
    requires AllWritten(ts, peerMax)
  {
    if ts == [] then []
    else
      assert Written(ts[0], peerMax);
      [RawFrame(channel, EncodeBody(TransferBody(ts[0])))] + Wire(ts[1..], channel, peerMax)
  }

  lemma {:induction false} SentNormal(t: Transfer)
    requires SentShape(t)
    ensures NormalBody(TransferBody(t)) == TransferBody(t)
  {
  }

  ghost predicate PieceShape(t: Transfer, m: Outgoing, n: nat) {
    SentShape(t) && |t.payload| <= n && (t.tag.Some? ==> t.tag.value == m.tag)
  }

  ghost predicate Pieces(ts: seq<Transfer>, m: Outgoing, n: nat) {
    forall k | 0 <= k < |ts| :: PieceShape(ts[k], m, n)
  }

  /** The transfers of a split message, stamped, have the shape the size bound speaks of. */
  lemma {:induction false} StampedShape(m: Outgoing, rest: bytes, n: nat, first: bool, id: uint32)
    requires n > 0 && 0 < |m.tag| <= MAX_TAG
    ensures Pieces(Stamp(Split(m, rest, n, first), id), m, n)
    decreases |rest|
  {
    hide Split, Stamp;
    if rest != [] {
      StampSplit(m, rest, n, first, id);
      if |rest| > n { StampedShape(m, rest[n..], n, false, id); }
    } else {
      SplitNothing(m, n, first);
    }
  }

  /** Tags of at most 27 bytes: no frame of any message is turned away. */
  lemma {:induction false} ShortTagsWritten(m: Outgoing, data: bytes, peerMax: nat, id: uint32)
    requires peerMax > MAX_TRANSFER_HEADER && 0 < |m.tag| <= 27
    ensures AllWritten(Stamp(Split(m, data, peerMax - MAX_TRANSFER_HEADER, true), id), peerMax)
  {
    hide FaithfulBody, FrameSize, Split, Stamp, SentShape;
    var n := peerMax - MAX_TRANSFER_HEADER;
    StampedShape(m, data, n, true, id);
    var ts := Stamp(Split(m, data, n, true), id);
    forall k | 0 <= k < |ts| ensures Written(ts[k], peerMax) {
      assert PieceShape(ts[k], m, n);
      SentFrameFits(ts[k], peerMax);
    }
  }

  /** The transfers in some frames, up to the first body that does not parse: it ends the connection. */
  function Parsed(fs: seq<RawFrame>): (ts: seq<Transfer>) {
    if fs == [] then []
    else
      var r := ParseBody(fs[0].body);
      if !r.Ok? then []
      else (if r.val.TransferBody? then [r.val.transfer] else []) + Parsed(fs[1..])
  }

  lemma {:induction false} ParsedOne(t: Transfer)
    requires SentShape(t) && FaithfulBody(TransferBody(t))
    ensures var r := ParseBody(EncodeBody(TransferBody(t)));
            r.Ok? && r.val == TransferBody(t)
  {
    hide FaithfulBody, EncodeBody, ParseBody;
    Frames.BodyRoundTrip(TransferBody(t));
    SentNormal(t);
  }

  lemma {:induction false} ParsedWire(ts: seq<Transfer>, channel: uint16, peerMax: nat)
    requires AllWritten(ts, peerMax)
    ensures Parsed(Wire(ts, channel, peerMax)) == ts
  {
    hide EncodableBody, FaithfulFields, EncodeBody, ParseBody, SentShape, FrameSize;
    if ts != [] {
      assert Written(ts[0], peerMax);
      ParsedOne(ts[0]);
      ParsedWire(ts[1..], channel, peerMax);
      var fs := Wire(ts, channel, peerMax);
      assert fs[0].body == EncodeBody(TransferBody(ts[0]));
      assert fs[1..] == Wire(ts[1..], channel, peerMax);
    }
  }

  /** The transfers of all parcels. */
  ghost function Transfers(ps: seq<Parcel>, peerMax: nat, r: Rx, id: uint32): (ts: seq<Transfer>)
    requires peerMax > MAX_TRANSFER_HEADER && forall k | 0 <= k < |ps| :: Good(ps[k], r)
  {
    ItemsDecode(ps, peerMax, r, r, id);
    AllStamped(Items(ps, peerMax, r), id)
  }

  /** The receiving side: parse each body, give each transfer to the receiver. */
  method ReceiveFrames(fs: seq<RawFrame>, receiver: Receiver)
    modifies receiver
    ensures receiver.State() == ReceiveAll(old(receiver.State()), Parsed(fs))
  {
    hide ParseBody, Receive, ReceiveAll;
    var k := 0;
    while k < |fs| && receiver.doneErr.None? && !receiver.panicked
      invariant 0 <= k <= |fs|
      invariant ReceiveAll(receiver.State(), Parsed(fs[k..])) == ReceiveAll(old(receiver.State()), Parsed(fs))
    {
      assert fs[k..][0] == fs[k] && fs[k..][1..] == fs[k + 1..];
      assert [] + Parsed(fs[k + 1..]) == Parsed(fs[k + 1..]);
      var body := ParseBody(fs[k].body);
      if !body.Ok? { break; }
      if body.val.TransferBody? {
        ReceiveStep(receiver.State(), body.val.transfer, Parsed(fs[k + 1..]));
        receiver.MuxReceive(body.val.transfer);
      }
      k := k + 1;
    }
    ReceiveNone(receiver.State(), Parsed(fs[k..]));
  }

  /** Tags of at most 27 bytes: every frame of every message is written. */
  lemma {:induction false} AllShortTagsWritten(ps: seq<Parcel>, peerMax: nat, r: Rx, id: uint32)
    requires peerMax > MAX_TRANSFER_HEADER && forall k | 0 <= k < |ps| :: Good(ps[k], r) && |ps[k].out.tag| <= 27
    ensures AllWritten(Transfers(ps, peerMax, r, id), peerMax)
    decreases |ps|
  {
    hide Good, Decodable, Split, Stamp, Written, Item;
    ItemsDecode(ps, peerMax, r, r, id);
    if ps != [] {
      assert Good(ps[0], r);
      var xs := Items(ps, peerMax, r);
      assert xs[1..] == Items(ps[1..], peerMax, r);
      GoodTag(ps[0], peerMax, r);
      ShortTagsWritten(ps[0].out, xs[0].data, peerMax, id);
      AllShortTagsWritten(ps[1..], peerMax, r, Add32(id, 1));
    }
  }

  lemma {:induction false} GoodTag(p: Parcel, peerMax: nat, r: Rx)
    requires Good(p, r) && peerMax > MAX_TRANSFER_HEADER
    ensures var x := Item(p, peerMax); p.out.tag != [] && x.out == p.out && x.maxPayload == peerMax - MAX_TRANSFER_HEADER
  {
  }

  lemma {:induction false} ReceivedFromWire(r: Rx, ps: seq<Parcel>, channel: uint16, peerMax: nat, id: uint32)
    requires Idle(r) && Running(r) && peerMax > MAX_TRANSFER_HEADER
    requires forall k | 0 <= k < |ps| :: Good(ps[k], r)
    requires AllWritten(Transfers(ps, peerMax, r, id), peerMax)
    ensures ReceiveAll(r, Parsed(Wire(Transfers(ps, peerMax, r, id), channel, peerMax))) == Arrived(r, ps, id)
  {
    hide Good, Receive, ReceiveAll, Arrived, AllWritten, Items, AllStamped, Decodable, AllDelivered;
    ItemsDecode(ps, peerMax, r, r, id);
    RunDelivers(r, Items(ps, peerMax, r), id);
    ParsedWire(Transfers(ps, peerMax, r, id), channel, peerMax);
  }

  /**
   A delivery whose annotations may have any keys, cut anywhere: the message arrives exactly when
   Go can hash every key, and otherwise the receiving process panics at the last transfer.
   */
  lemma {:induction false} DeliveryExact(r: Rx, m: Outgoing, id: uint32, ss: seq<Section>, n: nat)
    requires Idle(r) && Running(r) && n > 0 && ss != []
    requires forall k | 0 <= k < |ss| :: FaithfulSection(ss[k]) || Annotated(ss[k])
    requires (MessageExact(ss); FitsReceiver(r, EncodeSections(ss)))
    ensures EncodableSections(ss)
    ensures var s := ReceiveAll(r, Stamp(Split(m, EncodeSections(ss), n, true), id));
            if forall k | 0 <= k < |ss| && Annotated(ss[k]) :: AllHashable(ss[k])
            then s == Delivered(r, m, id, ApplyAll(EMPTY, NormalSections(ss))) else Crashed(r, s)
  {
    hide FaithfulSection, Annotated, AllHashable, EncodeSections, Unmarshal, ApplyAll, NormalSections;
    hide ReceiveAll, Split, Stamp, Delivered;
    MessageExact(ss);
    EncodedNonEmpty(ss);
    var data := EncodeSections(ss);
    assert [] + data == data;
    Reassemble(r, m, id, [], data, n);
  }

  /**
   End to end: however the byte stream is cut into reads, and wherever keepalives stand in it,
   reading frames, parsing bodies and receiving transfers delivers exactly the messages that were
   marshaled, split, numbered, encoded and framed on the other side.
   */
  method Arrive(ghost ps: seq<Parcel>, ghost channel: uint16, ghost peerMax: nat, ghost id: uint32,
                ghost layout: seq<RawFrame>, chunks: seq<bytes>, maxFrameSize: uint32, receiver: Receiver)
    requires Idle(receiver.State()) && Running(receiver.State()) && peerMax > MAX_TRANSFER_HEADER
    requires forall k | 0 <= k < |ps| :: Good(ps[k], receiver.State())
    requires AllWritten(Transfers(ps, peerMax, receiver.State(), id), peerMax)
    requires forall k | 0 <= k < |layout| :: Sendable(layout[k])
    requires WithBody(layout) == Wire(Transfers(ps, peerMax, receiver.State(), id), channel, peerMax)
    requires Concat(chunks) == Layout(layout)
    modifies receiver
    ensures receiver.State() == Arrived(old(receiver.State()), ps, id)
  {
    hide Good, Arrived, AllWritten, Wire, Transfers, Parsed, ReceiveAll, WithBody, Concat, Layout, Sendable;
    ReceivedFromWire(receiver.State(), ps, channel, peerMax, id);
    var fs := ReceiveLayout(layout, chunks, maxFrameSize);
    ReceiveFrames(fs, receiver);
  }

  /** The same for tags of at most 27 bytes, such as those send makes up: then nothing is turned away. */
  method ArriveShortTags(ghost ps: seq<Parcel>, ghost channel: uint16, ghost peerMax: nat, ghost id: uint32,
                         ghost layout: seq<RawFrame>, chunks: seq<bytes>, maxFrameSize: uint32, receiver: Receiver)
    requires Idle(receiver.State()) && Running(receiver.State()) && peerMax > MAX_TRANSFER_HEADER
    requires forall k | 0 <= k < |ps| :: Good(ps[k], receiver.State()) && |ps[k].out.tag| <= 27
    requires forall k | 0 <= k < |layout| :: Sendable(layout[k])
    requires (AllShortTagsWritten(ps, peerMax, receiver.State(), id);
              WithBody(layout) == Wire(Transfers(ps, peerMax, receiver.State(), id), channel, peerMax))
    requires Concat(chunks) == Layout(layout)
    modifies receiver
    ensures receiver.State() == Arrived(old(receiver.State()), ps, id)
  {
    hide Good, Arrived, AllWritten, Wire, Transfers, Parsed, ReceiveAll, WithBody, Concat, Layout, Sendable;
    AllShortTagsWritten(ps, peerMax, receiver.State(), id);
    Arrive(ps, channel, peerMax, id, layout, chunks, maxFrameSize, receiver);
  }
}
