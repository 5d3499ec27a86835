/**
 Both halves at work: messages are marshaled into a buffer, sent by the sender, numbered by the
 session's mux, written as frames, cut by the network anywhere, and received.
 */
module Exchange {
  import opened Words
  import opened Values
  import opened RoundTrip
  import opened Buffers
  import opened Framing
  import opened Frames
  import opened Messages
  import opened Delivery
  import opened EndToEnd
  import opened Session
  import opened SessionRuns
  import opened SessionMux
  import opened Writer

  /** What a caller of Send hands over. */
  datatype Post = Post(message: Message, tag: bytes, format: uint32, settled: bool)

  // ---- what is sent ------------------------------------------------------------------

  /** The message with what send puts around it; a message without a tag gets the next number. */
  ghost function ParcelOf(x: Post, handle: uint32, mode: SettleMode, counter: uint64): (p: Parcel) {
    Pow256Values();
    Parcel(Outgoing(handle, if x.tag == [] then Be(counter, 8) else x.tag, x.format, x.settled || mode == Settled),
           x.message)
  }

  ghost function Parcels(xs: seq<Post>, handle: uint32, mode: SettleMode, counter: uint64): (ps: seq<Parcel>)
    ensures |ps| == |xs|
  {
    if xs == [] then []
    else [ParcelOf(xs[0], handle, mode, counter)]
         + Parcels(xs[1..], handle, mode, if xs[0].tag == [] then Next64(counter) else counter)
  }

  /** A message send does not refuse, with a tag short enough for every frame. */
  ghost predicate Sendworthy(x: Post, mode: SettleMode, maxMessageSize: uint64) {
    && |x.tag| <= 27 && !(x.settled && mode == Unsettled)
    && (forall k | 0 <= k < |SectionsOf(x.message)| :: Typed(SectionsOf(x.message)[k].body))
    && EncodableSections(SectionsOf(x.message))
    && (maxMessageSize == 0 || |EncodeSections(SectionsOf(x.message))| <= maxMessageSize)
  }

  ghost predicate Deliverable(p: Parcel, r: Rx) {
    Good(p, r) && |p.out.tag| <= 27
  }

  ghost predicate AllDeliverable(ps: seq<Parcel>, r: Rx) {
    forall k | 0 <= k < |ps| :: Deliverable(ps[k], r)
  }

  /** The transfers of the parcels, in order. */
  ghost function Stamped(ps: seq<Parcel>, peerMax: nat, r: Rx, id: uint32): (ts: seq<Transfer>)
    requires peerMax > MAX_TRANSFER_HEADER && AllDeliverable(ps, r)
    ensures AllWritten(ts, peerMax)
  {
    assert forall k | 0 <= k < |ps| :: Deliverable(ps[k], r);
    AllShortTagsWritten(ps, peerMax, r, id);
    EndToEnd.Transfers(ps, peerMax, r, id)
  }

  lemma {:induction false} StampedFirst(ps: seq<Parcel>, peerMax: nat, r: Rx, id: uint32)
    requires peerMax > MAX_TRANSFER_HEADER && AllDeliverable(ps, r) && ps != []
    ensures Deliverable(ps[0], r) && AllDeliverable(ps[1..], r) && EncodableSections(SectionsOf(ps[0].message))
    ensures Stamped(ps, peerMax, r, id) == Stamp(Split(ps[0].out, EncodeSections(SectionsOf(ps[0].message)),
                                                       peerMax - MAX_TRANSFER_HEADER, true), id)
                                           + Stamped(ps[1..], peerMax, r, Add32(id, 1))
  {
    hide Good, Decodable, Split, Stamp, AllWritten, SectionsOf, EncodeSections;
    assert Deliverable(ps[0], r);
    GoodMarshals(ps[0], r);
    forall k | 0 <= k < |ps[1..]| ensures Deliverable(ps[1..][k], r) {
      assert ps[1..][k] == ps[k + 1];
    }
    ItemsDecode(ps, peerMax, r, r, id);
    ItemsDecode(ps[1..], peerMax, r, r, Add32(id, 1));
    var xs := Items(ps, peerMax, r);
    assert xs[1..] == Items(ps[1..], peerMax, r);
  }

  lemma {:induction false} GoodMarshals(p: Parcel, r: Rx)
    requires Good(p, r)
    ensures Marshalable(p.message) && EncodableSections(SectionsOf(p.message))
    ensures EncodeSections(SectionsOf(p.message)) != []
  {
    hide SectionsOf, EncodeSections, FaithfulSection;
    EncodedNonEmpty(SectionsOf(p.message));
  }

  // ---- frames ------------------------------------------------------------------------

  lemma {:induction false} SentTyped(t: Transfer)
    requires SentShape(t)
    ensures Typed(Composite(TRANSFER, ToFields(TransferBody(t))))
  {
    UintSizeIs(t.handle);
    if t.deliveryId.Some? { UintSizeIs(t.deliveryId.value); UintSizeIs(t.format.value); }
    hide Pow256, Encode, UintSize;
    var fs := ToFields(TransferBody(t));
    forall x | x in fs ensures Typed(x) {}
  }

  lemma {:induction false} SentAt(ts: seq<Transfer>)
    ensures |SentAll(ts)| == |ts| && forall k | 0 <= k < |ts| :: SentAll(ts)[k] == SentTransfer(ts[k])
  {
    if ts != [] { SentAt(ts[1..]); }
  }

  ghost predicate AllSendable(fs: seq<RawFrame>) {
    forall k | 0 <= k < |fs| :: Sendable(fs[k])
  }

  lemma {:induction false} WireSendable(ts: seq<Transfer>, channel: uint16, peerMax: nat)
    requires AllWritten(ts, peerMax) && peerMax <= MAX_INT32
    ensures AllSendable(Wire(ts, channel, peerMax)) && WithBody(Wire(ts, channel, peerMax)) == Wire(ts, channel, peerMax)
  {
    hide EncodeBody, EncodableBody, FaithfulFields, SentShape;
    if ts != [] {
      assert EndToEnd.Written(ts[0], peerMax);
      BodyNonEmpty(TransferBody(ts[0]));
      WireSendable(ts[1..], channel, peerMax);
      var fs := Wire(ts, channel, peerMax);
      assert fs[1..] == Wire(ts[1..], channel, peerMax);
      forall k | 0 <= k < |fs| ensures Sendable(fs[k]) {
        if k > 0 { assert fs[k] == fs[1..][k - 1]; }
      }
    }
  }

  lemma {:induction false} BodyNonEmpty(b: Body)
    requires EncodableBody(b)
    ensures EncodeBody(b) != []
  {
    hide Encodable, ToFields;
  }

  ghost function StreamOf(ts: seq<Transfer>, channel: uint16, peerMax: nat): (s: bytes)
    requires AllWritten(ts, peerMax) && peerMax <= MAX_INT32
  {
    WireSendable(ts, channel, peerMax);
    Layout(Wire(ts, channel, peerMax))
  }

  lemma {:induction false} StreamFirst(ts: seq<Transfer>, channel: uint16, peerMax: nat)
    requires AllWritten(ts, peerMax) && peerMax <= MAX_INT32 && ts != []
    ensures EndToEnd.Written(ts[0], peerMax) && AllWritten(ts[1..], peerMax)
    ensures var f := RawFrame(channel, EncodeBody(TransferBody(ts[0])));
            && Sendable(f)
            && StreamOf(ts, channel, peerMax) == FrameBytes(f) + StreamOf(ts[1..], channel, peerMax)
  {
    hide EncodeBody, EncodableBody, FaithfulFields, SentShape, FrameBytes;
    assert EndToEnd.Written(ts[0], peerMax);
    WireSendable(ts, channel, peerMax);
    var fs := Wire(ts, channel, peerMax);
    assert Sendable(fs[0]) && fs[1..] == Wire(ts[1..], channel, peerMax);
  }

  lemma {:induction false} StreamNone(channel: uint16, peerMax: nat)
    requires peerMax <= MAX_INT32
    ensures StreamOf([], channel, peerMax) == []
  {
  }

  lemma {:induction false} StreamJoin(a: seq<Transfer>, b: seq<Transfer>, channel: uint16, peerMax: nat)
    requires AllWritten(a, peerMax) && AllWritten(b, peerMax) && peerMax <= MAX_INT32
    ensures AllWritten(a + b, peerMax)
    ensures StreamOf(a + b, channel, peerMax) == StreamOf(a, channel, peerMax) + StreamOf(b, channel, peerMax)
  {
    hide StreamOf, EndToEnd.Written, FrameBytes, EncodeBody;
    assert AllWritten(a + b, peerMax);
    if a == [] {
      assert a + b == b;
      StreamNone(channel, peerMax);
    } else {
      StreamFirst(a, channel, peerMax);
      StreamFirst(a + b, channel, peerMax);
      assert (a + b)[1..] == a[1..] + b;
      StreamJoin(a[1..], b, channel, peerMax);
    }
  }

  /** The connection writes the transfers it is given, each into a buffer of its own frame. */
  method WriteTransfers(sent: seq<Sent>, ghost ts: seq<Transfer>, channel: uint16, ghost peerMax: nat)
    returns (stream: bytes)
    requires sent == SentAll(ts) && AllWritten(ts, peerMax) && peerMax <= MAX_INT32
    ensures stream == StreamOf(ts, channel, peerMax)
  {
    hide StreamOf, AllWritten, SentAll, FrameBytes, EncodeBody, EncodableBody, Typed, ToFields;
    SentAt(ts);
    StreamNone(channel, peerMax);
    stream := [];
    var k := 0;
    assert ts[0..] == ts;
    while k < |sent|
      invariant 0 <= k <= |sent| && AllWritten(ts[k..], peerMax)
      invariant stream + StreamOf(ts[k..], channel, peerMax) == StreamOf(ts, channel, peerMax)
    {
      StreamFirst(ts[k..], channel, peerMax);
      assert ts[k..][0] == ts[k] && ts[k..][1..] == ts[k + 1..];
      WrittenIs(ts[k], peerMax);
      var buf := new Buffer([]);
      var ok := WriteFrame(buf, channel, TransferBody(sent[k].transfer));
      stream := stream + buf.b;
      k := k + 1;
    }
    assert ts[k..] == [];
  }

  lemma {:induction false} WrittenIs(t: Transfer, peerMax: nat)
    requires EndToEnd.Written(t, peerMax)
    ensures EncodableBody(TransferBody(t)) && Typed(Composite(Code(TransferBody(t)), ToFields(TransferBody(t))))
  {
    hide EncodableBody, FaithfulFields, Typed, ToFields, FrameSize;
    SentTyped(t);
  }

  // ---- sending -----------------------------------------------------------------------

  /** The session can take n more transfers, of messages whose channels are numbered from done on. */
  ghost predicate OpenFor(s: SessionState, n: nat, done: nat)
    reads s
  {
    && EndOnce(s.LifeNow()) && Sound(s.LedgerNow())
    && !s.exited && !s.endPanic && !s.channelPanic && !s.closeInProgress
    && s.remoteIncomingWindow >= n && s.outgoingWindow != 0
    && forall c | c in s.channels :: c < done
  }

  lemma {:induction false} OpenReady(s: SessionState, n: nat, done: nat)
    requires OpenFor(s, n, done)
    ensures Ready(s.State(), n, done)
  {
    hide EndOnce, Sound;
  }

  /** Send, with every transfer written: the split of the message, whole. */
  lemma {:induction false} SentWhole(r: SendOutcome, all: seq<Envelope>)
    requires SentAs(r, all, (_: nat) => Fate.Written)
    ensures r == Sent(all)
  {
  }

  /** One message through the sender, the session's mux and the connection. */
  method SendOne(x: Post, sender: Sender, session: SessionState, inputHandle: uint32, done: nat, channel: uint16,
                 ghost r: Rx)
    returns (stream: bytes)
    requires MAX_TRANSFER_HEADER < sender.peerMaxFrameSize <= MAX_INT32
    requires Sendworthy(x, sender.mode, sender.maxMessageSize)
    requires Deliverable(ParcelOf(x, sender.handle, sender.mode, sender.nextDeliveryTag), r)
    requires OpenFor(session, |Split(ParcelOf(x, sender.handle, sender.mode, sender.nextDeliveryTag).out,
                                     EncodeSections(SectionsOf(x.message)),
                                     sender.peerMaxFrameSize - MAX_TRANSFER_HEADER, true)|, done)
    modifies sender, session
    ensures var p := old(ParcelOf(x, sender.handle, sender.mode, sender.nextDeliveryTag));
            var envs := Split(p.out, EncodeSections(SectionsOf(x.message)),
                              sender.peerMaxFrameSize - MAX_TRANSFER_HEADER, true);
            var ts := Stamp(envs, old(session.nextDeliveryId));
            && AllWritten(ts, sender.peerMaxFrameSize) && stream == StreamOf(ts, channel, sender.peerMaxFrameSize)
            && OpenFor(session, old(session.remoteIncomingWindow) - |envs|, done + 1)
    ensures session.nextDeliveryId == Add32(old(session.nextDeliveryId), 1)
    ensures sender.nextDeliveryTag == if x.tag == [] then Next64(old(sender.nextDeliveryTag))
                                      else old(sender.nextDeliveryTag)
  {
    hide SectionsOf, EncodeSections, EncodableSections, Split, Stamp, StreamOf, AllWritten, Good, EndOnce, Sound, SentAll;
    hide Sendworthy, Next64;
    ghost var p, id := ParcelOf(x, sender.handle, sender.mode, sender.nextDeliveryTag), session.nextDeliveryId;
    GoodMarshals(p, r);
    ghost var data := EncodeSections(SectionsOf(x.message));
    var envs := Prepare(x, sender, p);
    var sent := Number(envs, session, inputHandle, done, p.out, data, sender.peerMaxFrameSize - MAX_TRANSFER_HEADER);
    ShortTagsWritten(p.out, data, sender.peerMaxFrameSize, id);
    stream := WriteTransfers(sent, Stamp(envs, id), channel, sender.peerMaxFrameSize);
  }

  /** Marshaling the message and splitting it into transfers. */
  method Prepare(x: Post, sender: Sender, ghost p: Parcel) returns (envs: seq<Envelope>)
    requires sender.peerMaxFrameSize > MAX_TRANSFER_HEADER
    requires Sendworthy(x, sender.mode, sender.maxMessageSize)
    requires p == ParcelOf(x, sender.handle, sender.mode, sender.nextDeliveryTag)
    modifies sender
    ensures EncodableSections(SectionsOf(x.message))
    ensures envs == Split(p.out, EncodeSections(SectionsOf(x.message)),
                          sender.peerMaxFrameSize - MAX_TRANSFER_HEADER, true)
    ensures sender.nextDeliveryTag == if x.tag == [] then Next64(old(sender.nextDeliveryTag))
                                      else old(sender.nextDeliveryTag)
  {
    hide SectionsOf, EncodeSections, EncodableSections, Typed, Split, SentAs, Next64;
    var buf := new Buffer([]);
    var ok := MarshalMessage(buf, x.message);
    assert buf.Unread() == EncodeSections(SectionsOf(x.message));
    var outcome := sender.Send(buf, x.tag, x.format, x.settled, (_: nat) => Fate.Written);
    SentWhole(outcome, Split(p.out, EncodeSections(SectionsOf(x.message)),
                             sender.peerMaxFrameSize - MAX_TRANSFER_HEADER, true));
    envs := outcome.envs;
  }

  /** The session's mux takes the transfers one by one; the frames it sends are the stamped pieces. */
  method Number(envs: seq<Envelope>, session: SessionState, inputHandle: uint32, done: nat,
                ghost m: Outgoing, ghost data: bytes, ghost n: nat)
    returns (sent: seq<Sent>)
    requires n > 0 && data != [] && envs == Split(m, data, n, true) && OpenFor(session, |envs|, done)
    modifies session
    ensures sent == SentAll(Stamp(envs, old(session.nextDeliveryId)))
    ensures session.nextDeliveryId == Add32(old(session.nextDeliveryId), 1)
    ensures OpenFor(session, old(session.remoteIncomingWindow) - |envs|, done + 1)
  {
    hide Split, Stamp, EndOnce, Sound, Run, ValidRun, Passes, SentAll, LatestGrant, Add32;
    OpenReady(session, |envs|, done);
    SendsStamped(session.State(), m, data, n, true, inputHandle, done, session.nextDeliveryId);
    SendsKeep(session.State(), m, data, n, true, inputHandle, done);
    var from := |session.sent|;
    session.Drive(Passes(envs, inputHandle, done));
    sent := session.sent[from..];
  }

  /** Any messages one after the other. */
  method Transmit(xs: seq<Post>, sender: Sender, session: SessionState, inputHandle: uint32, done: nat, channel: uint16,
                  ghost r: Rx)
    returns (stream: bytes)
    requires MAX_TRANSFER_HEADER < sender.peerMaxFrameSize <= MAX_INT32
    requires forall k | 0 <= k < |xs| :: Sendworthy(xs[k], sender.mode, sender.maxMessageSize)
    requires AllDeliverable(Parcels(xs, sender.handle, sender.mode, sender.nextDeliveryTag), r)
    requires OpenFor(session, |Stamped(Parcels(xs, sender.handle, sender.mode, sender.nextDeliveryTag),
                                       sender.peerMaxFrameSize, r, session.nextDeliveryId)|, done)
    modifies sender, session
    ensures stream == StreamOf(Stamped(old(Parcels(xs, sender.handle, sender.mode, sender.nextDeliveryTag)),
                                       sender.peerMaxFrameSize, r, old(session.nextDeliveryId)),
                               channel, sender.peerMaxFrameSize)
    decreases |xs|
  {
    hide Sendworthy, Deliverable, AllDeliverable, Stamped, StreamOf, AllWritten, EncodeSections, EncodableSections,
      SectionsOf, Split, Stamp, Next64, EndOnce, Sound;
    ghost var ps, id, max := Parcels(xs, sender.handle, sender.mode, sender.nextDeliveryTag), session.nextDeliveryId,
                             sender.peerMaxFrameSize;
    if xs == [] {
      StampedNone(max, r, id);
      StreamNone(channel, max);
      return [];
    }
    StampedFirst(ps, max, r, id);
    assert ps[1..] == Parcels(xs[1..], sender.handle, sender.mode,
                              if xs[0].tag == [] then Next64(sender.nextDeliveryTag) else sender.nextDeliveryTag);
    var first := SendOne(xs[0], sender, session, inputHandle, done, channel, r);
    var rest := Transmit(xs[1..], sender, session, inputHandle, done + 1, channel, r);
    ghost var envs := Split(ps[0].out, EncodeSections(SectionsOf(ps[0].message)), max - MAX_TRANSFER_HEADER, true);
    StreamJoin(Stamp(envs, id), Stamped(ps[1..], max, r, Add32(id, 1)), channel, max);
    stream := first + rest;
  }

  lemma {:induction false} StampedNone(peerMax: nat, r: Rx, id: uint32)
    requires peerMax > MAX_TRANSFER_HEADER
    ensures AllDeliverable([], r) && Stamped([], peerMax, r, id) == []
  {
  }

  // ---- the network -------------------------------------------------------------------

  /** A stream in reads of the given sizes, and the rest. */
  function Cut(s: bytes, sizes: seq<nat>): (cs: seq<bytes>)
    decreases |sizes|
  {
    if sizes == [] then [s]
    else
      var n := if sizes[0] <= |s| then sizes[0] else |s|;
      [s[..n]] + Cut(s[n..], sizes[1..])
  }

  lemma {:induction false} CutWhole(s: bytes, sizes: seq<nat>)
    ensures Concat(Cut(s, sizes)) == s
    decreases |sizes|
  {
    if sizes == [] {
      assert [s][1..] == [] && Concat([s]) == s + Concat([]);
    } else {
      var n := if sizes[0] <= |s| then sizes[0] else |s|;
      var cs := Cut(s, sizes);
      CutWhole(s[n..], sizes[1..]);
      assert cs[0] == s[..n] && cs[1..] == Cut(s[n..], sizes[1..]);
      assert s[..n] + s[n..] == s;
    }
  }

  /**
   All of it: what the sender, the session and the connection of one side write, cut into reads
   anywhere, leaves the receiver of the other side with exactly the messages handed over, in order.
   */
  method SendAndReceive(xs: seq<Post>, sender: Sender, session: SessionState, inputHandle: uint32, done: nat,
                        channel: uint16, sizes: seq<nat>, maxFrameSize: uint32, receiver: Receiver)
    requires MAX_TRANSFER_HEADER < sender.peerMaxFrameSize <= MAX_INT32
    requires Idle(receiver.State()) && Running(receiver.State())
    requires forall k | 0 <= k < |xs| :: Sendworthy(xs[k], sender.mode, sender.maxMessageSize)
    requires AllDeliverable(Parcels(xs, sender.handle, sender.mode, sender.nextDeliveryTag), receiver.State())
    requires OpenFor(session, |Stamped(Parcels(xs, sender.handle, sender.mode, sender.nextDeliveryTag),
                                       sender.peerMaxFrameSize, receiver.State(), session.nextDeliveryId)|, done)
    modifies sender, session, receiver
    ensures receiver.State() == Arrived(old(receiver.State()),
                                        old(Parcels(xs, sender.handle, sender.mode, sender.nextDeliveryTag)),
                                        old(session.nextDeliveryId))
  {
    hide Sendworthy, Deliverable, Arrived, Wire, Layout, Concat, Cut, WithBody, Parcels, OpenFor;
    ghost var ps, id, r := Parcels(xs, sender.handle, sender.mode, sender.nextDeliveryTag), session.nextDeliveryId,
                           receiver.State();
    var stream := Transmit(xs, sender, session, inputHandle, done, channel, r);
    ghost var ts, max := Stamped(ps, sender.peerMaxFrameSize, r, id), sender.peerMaxFrameSize;
    WireSendable(ts, channel, max);
    CutWhole(stream, sizes);
    Delivered(ps, r);
    Arrive(ps, channel, max, id, Wire(ts, channel, max), Cut(stream, sizes), maxFrameSize, receiver);
  }

  lemma {:induction false} Delivered(ps: seq<Parcel>, r: Rx)
    requires AllDeliverable(ps, r)
    ensures forall k | 0 <= k < |ps| :: Good(ps[k], r)
  {
    hide Good;
    forall k | 0 <= k < |ps| ensures Good(ps[k], r) {
      assert Deliverable(ps[k], r);
    }
  }
}
