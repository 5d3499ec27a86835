/** A message on its way: split into transfers by the sender, put together again by the receiver. */
module Delivery {
  import opened Words
  import opened Values
  import opened Decoder
  import opened Buffers
  import opened Frames
  import opened Messages

  // ---- the sender --------------------------------------------------------------------

  /** A transfer on its way to the session: it may still need a delivery id, and the last carries the completion channel. */
  datatype Envelope = Envelope(frame: Transfer, needsId: bool, completes: bool)

  datatype SettleMode = Unsettled | Settled | Mixed

  /**
   What becomes of a transfer: the mux never takes it, its write fails, the link goes down before
   either is known, or it is written.
   */
  datatype Fate = NotTaken | NotWritten | Unknown | Written

  /** Stopped: the transfers the mux took, and whether it is asked to give the credit back. */
  datatype SendOutcome =
    | Sent(envs: seq<Envelope>)
    | Stopped(envs: seq<Envelope>, rollback: bool)
    | TagTooLong | MessageTooLarge | CannotSettle

  /** What one call of send transmits. */
  datatype Outgoing = Outgoing(handle: uint32, tag: bytes, format: uint32, settled: bool)

  const MAX_TAG: nat := 32

  /** One transfer of a delivery, carrying the next n bytes or what is left. */
  function Piece(m: Outgoing, rest: bytes, n: nat, first: bool): (e: Envelope)
    requires n > 0
  {
    var more := |rest| > n;
    Envelope(Transfer(m.handle, None, if first then Some(m.tag) else None, if first then Some(m.format) else None,
                      !more && m.settled, more, None, Null, false, false, false,
                      if more then rest[..n] else rest),
             first, !more)
  }

  /** The transfers of a delivery whose unsent bytes are rest. */
  function Split(m: Outgoing, rest: bytes, n: nat, first: bool): (es: seq<Envelope>)
    requires n > 0
    decreases |rest|
  {
    if rest == [] then []
    else [Piece(m, rest, n, first)] + (if |rest| > n then Split(m, rest[n..], n, false) else [])
  }

  /** What sending all transfers comes to: it stops at the first that is not written. */
  ghost predicate SentAs(r: SendOutcome, all: seq<Envelope>, fate: nat -> Fate) {
    match r
    case Sent(envs) => envs == all && forall j: nat | j < |all| :: fate(j) == Written
    case Stopped(envs, rollback) =>
      exists k: nat ::
        && k < |all| && fate(k) != Written && (forall j: nat | j < k :: fate(j) == Written)
        && envs == all[..if fate(k).NotTaken? then k else k + 1]
        && rollback == (fate(k).NotWritten? && all[k].completes)
    case _ => false
  }

  lemma {:induction false} AllWentOut(all: seq<Envelope>, fate: nat -> Fate)
    requires forall j: nat | j < |all| :: fate(j) == Written
    ensures SentAs(Sent(all), all, fate)
  {
  }

  lemma {:induction false} StoppedThere(all: seq<Envelope>, k: nat, fate: nat -> Fate)
    requires k < |all| && fate(k) != Written && forall j: nat | j < k :: fate(j) == Written
    ensures SentAs(Stopped(all[..if fate(k).NotTaken? then k else k + 1], fate(k).NotWritten? && all[k].completes),
                   all, fate)
  {
  }

  lemma {:induction false} SplitNothing(m: Outgoing, n: nat, first: bool)
    requires n > 0
    ensures Split(m, [], n, first) == []
  {
  }

  /** One pass of the loop in send takes one piece off. */
  lemma {:induction false} SplitStep(m: Outgoing, rest: bytes, n: nat, first: bool, payload: bytes, left: bytes)
    requires n > 0 && rest != [] && rest == payload + left
    requires if n <= |rest| then |payload| == n else left == []
    ensures Split(m, rest, n, first) == [Piece(m, rest, n, first)] + Split(m, left, n, false)
    ensures Piece(m, rest, n, first) ==
            Envelope(Transfer(m.handle, None, if first then Some(m.tag) else None,
                              if first then Some(m.format) else None, left == [] && m.settled, left != [],
                              None, Null, false, false, false, payload),
                     first, left == [])
  {
    if left == [] {
      assert rest == payload;
    } else {
      assert payload == rest[..n] && left == rest[n..];
    }
  }

  /** The same with the transfers sent before. */
  lemma {:induction false} NextPiece(m: Outgoing, rest: bytes, n: nat, first: bool, payload: bytes, left: bytes,
                                     done: seq<Envelope>, all: seq<Envelope>)
    requires n > 0 && rest != [] && rest == payload + left
    requires if n <= |rest| then |payload| == n else left == []
    requires done + Split(m, rest, n, first) == all
    ensures var env := Envelope(Transfer(m.handle, None, if first then Some(m.tag) else None,
                                         if first then Some(m.format) else None, left == [] && m.settled, left != [],
                                         None, Null, false, false, false, payload),
                                first, left == []);
            && |done| < |all| && all[|done|] == env && all[..|done|] == done && all[..|done| + 1] == done + [env]
            && (done + [env]) + Split(m, left, n, false) == all
  {
    hide Split, Piece;
    SplitStep(m, rest, n, first, payload, left);
    var env := Piece(m, rest, n, first);
    assert done + ([env] + Split(m, left, n, false)) == (done + [env]) + Split(m, left, n, false);
  }

  class Sender {
    const handle: uint32
    const mode: SettleMode
    const maxMessageSize: uint64
    const peerMaxFrameSize: uint32
    var nextDeliveryTag: uint64

    constructor (handle: uint32, mode: SettleMode, maxMessageSize: uint64, peerMaxFrameSize: uint32)
      ensures this.handle == handle && this.mode == mode && this.maxMessageSize == maxMessageSize
      ensures this.peerMaxFrameSize == peerMaxFrameSize && nextDeliveryTag == 0
    {
      this.handle, this.mode, this.maxMessageSize := handle, mode, maxMessageSize;
      this.peerMaxFrameSize, nextDeliveryTag := peerMaxFrameSize, 0;
    }

    /** The tag a message is sent under: its own, or the next number in eight bytes. */
    ghost function TagFor(tag: bytes): (r: bytes)
      reads this
    {
      Pow256Values();
      if tag == [] then Be(nextDeliveryTag, 8) else tag
    }

    /** send. The buffer holds the encoded message, and fate says what becomes of the k-th transfer. */
    method Send(buf: Buffer, tag: bytes, format: uint32, settled: bool, fate: nat -> Fate) returns (r: SendOutcome)
      requires buf.Valid() && peerMaxFrameSize > MAX_TRANSFER_HEADER
      modifies this, buf
      ensures r.TagTooLong? <==> |tag| > MAX_TAG
      ensures r.MessageTooLarge? <==>
                |tag| <= MAX_TAG && maxMessageSize != 0 && |old(buf.Unread())| > maxMessageSize
      ensures r.CannotSettle? <==> settled && mode == Unsettled && !r.TagTooLong? && !r.MessageTooLarge?
      ensures r.Sent? || r.Stopped? ==>
                SentAs(r, Split(Outgoing(handle, old(TagFor(tag)), format, settled || mode == Settled),
                                old(buf.Unread()), peerMaxFrameSize - MAX_TRANSFER_HEADER, true), fate)
      ensures nextDeliveryTag == if (r.Sent? || r.Stopped?) && tag == [] then Next64(old(nextDeliveryTag))
                                 else old(nextDeliveryTag)
    {
      hide Split, SentAs;
      if |tag| > MAX_TAG { return TagTooLong; }
      if maxMessageSize != 0 && buf.Len() > maxMessageSize { return MessageTooLarge; }
      if settled && mode == Unsettled { return CannotSettle; }
      var deliveryTag := tag;
      if |tag| == 0 { deliveryTag := NextTag(); }
      r := SendFrames(buf, Outgoing(handle, deliveryTag, format, mode == Settled || settled), fate);
    }

    method NextTag() returns (tag: bytes)
      modifies this`nextDeliveryTag
      ensures tag == old(TagFor([])) && nextDeliveryTag == Next64(old(nextDeliveryTag))
    {
      var buf := new Buffer([]);
      buf.AppendUint64(nextDeliveryTag);
      tag := buf.b;
      nextDeliveryTag := Next64(nextDeliveryTag);
    }

    /** The loop of send: one transfer per pass, as long as bytes are left and the transfers are written. */
    method SendFrames(buf: Buffer, m: Outgoing, fate: nat -> Fate) returns (r: SendOutcome)
      requires buf.Valid() && peerMaxFrameSize > MAX_TRANSFER_HEADER
      modifies buf
      ensures buf.Valid() && (r.Sent? || r.Stopped?)
      ensures SentAs(r, Split(m, old(buf.Unread()), peerMaxFrameSize - MAX_TRANSFER_HEADER, true), fate)
    {
      hide Split, Piece, SentAs;
      var maxPayload := peerMaxFrameSize - MAX_TRANSFER_HEADER;
      SplitNothing(m, maxPayload, false);
      SplitNothing(m, maxPayload, true);
      ghost var all := Split(m, buf.Unread(), maxPayload, true);
      var fr := Transfer(m.handle, None, Some(m.tag), Some(m.format), false, buf.Len() > 0,
                         None, Null, false, false, false, []);
      var first := true;
      var envs: seq<Envelope> := [];
      while fr.more
        invariant buf.Valid() && fr.more == (buf.Len() > 0)
        invariant fr == Transfer(m.handle, None, if first then Some(m.tag) else None,
                                 if first then Some(m.format) else None, fr.settled, fr.more,
                                 None, Null, false, false, false, fr.payload)
        invariant fr.more ==> !fr.settled
        invariant envs + Split(m, buf.Unread(), maxPayload, first) == all
        invariant forall j: nat | j < |envs| :: fate(j) == Written
        decreases buf.Len()
      {
        ghost var rest := buf.Unread();
        var payload, full := buf.Next(maxPayload);
        NextPiece(m, rest, maxPayload, first, payload, buf.Unread(), envs, all);
        fr := fr.(payload := payload, more := buf.Len() > 0);
        if !fr.more { fr := fr.(settled := m.settled); }
        var k, env := |envs|, Envelope(fr, first, !fr.more);
        if fate(k) != Written { StoppedThere(all, k, fate); }
        if fate(k) == NotTaken { return Stopped(envs, false); }
        envs := envs + [env];
        if fate(k) == NotWritten { return Stopped(envs, !fr.more); }
        if fate(k) == Unknown { return Stopped(envs, false); }
        fr := fr.(tag := None, format := None);
        first := false;
      }
      assert envs + [] == envs;
      AllWentOut(envs, fate);
      return Sent(envs);
    }
  }

  function Next64(n: uint64): (r: uint64) {
    if n == 0xFFFF_FFFF_FFFF_FFFF then 0 else n + 1
  }

  /** The counter after k tags. */
  function TagNumber(n: uint64, k: nat): (r: uint64) {
    if k == 0 then n else Next64(TagNumber(n, k - 1))
  }

  lemma {:induction false} TagCounts(n: uint64, k: nat)
    ensures TagNumber(n, k) == (n + k) % 0x1_0000_0000_0000_0000
  {
    hide Next64;
    if k == 0 {
      OwnRemainder(n);
    } else {
      TagCounts(n, k - 1);
      assert n + (k - 1) + 1 == n + k;
      NextRemainder(n + (k - 1));
    }
  }

  lemma {:induction false} OwnRemainder(n: uint64)
    ensures n == (n + 0) % 0x1_0000_0000_0000_0000
  {
  }

  lemma {:induction false} NextRemainder(a: nat)
    ensures Next64(a % 0x1_0000_0000_0000_0000) == (a + 1) % 0x1_0000_0000_0000_0000
  {
  }

  /** No two of 2^64 successive tags of a sender's own making are alike. */
  lemma {:induction false} TagsDiffer(n: uint64, j: nat, k: nat)
    requires j < k < j + 0x1_0000_0000_0000_0000
    ensures TagNumber(n, j) < Pow256(8) && TagNumber(n, k) < Pow256(8)
    ensures Be(TagNumber(n, j), 8) != Be(TagNumber(n, k), 8)
  {
    hide TagNumber, Be, Next64, Pow256, FromBe;
    Pow256Values();
    TagCounts(n, j);
    TagCounts(n, k);
    NotCongruent(n + j, n + k);
    assert FromBe(Be(TagNumber(n, j), 8)) == TagNumber(n, j);
    assert FromBe(Be(TagNumber(n, k), 8)) == TagNumber(n, k);
  }

  lemma {:induction false} NotCongruent(a: nat, b: nat)
    requires a < b < a + 0x1_0000_0000_0000_0000
    ensures a % 0x1_0000_0000_0000_0000 != b % 0x1_0000_0000_0000_0000
  {
  }

  // ---- the session: delivery ids ------------------------------------------------------

  /** The session gives the id to the transfer that asks for one. */
  function Stamp(es: seq<Envelope>, id: uint32): (ts: seq<Transfer>)
    ensures |ts| == |es|
  {
    if es == [] then []
    else [if es[0].needsId then es[0].frame.(deliveryId := Some(id)) else es[0].frame] + Stamp(es[1..], id)
  }

  // ---- the receiver ------------------------------------------------------------------

  datatype Failure =
    | NoDeliveryId | NoFormat | NoTag | OtherDeliveryId | OtherFormat | OtherTag | TooLarge | BadMessage

  /** The fields of the message being put together. */
  datatype Partial = Partial(deliveryId: uint32, format: uint32, tag: Option<bytes>, settled: bool)

  const NO_MESSAGE: Partial := Partial(0, 0, None, false)

  datatype Received = Received(deliveryId: uint32, format: uint32, tag: Option<bytes>, settled: bool, message: Message)

  datatype Rx = Rx(more: bool, buf: bytes, msg: Partial, queue: seq<Received>, deliveryCount: uint32,
                   linkCredit: uint32, unsettled: int, maxMessageSize: uint64,
                   closing: bool, doneErr: Option<Failure>, detaches: nat, panicked: bool)

  /** The loop still runs: no error is recorded and the process is there. */
  predicate Running(r: Rx) {
    r.doneErr.None? && !r.panicked
  }

  /** No message in progress. */
  predicate Idle(r: Rx) {
    !r.more && r.buf == [] && r.msg == NO_MESSAGE
  }

  /** closeWithError: one detach, the first error kept. */
  function Fail(r: Rx, f: Failure): (s: Rx) {
    if r.closing then r else r.(closing := true, doneErr := Some(f), detaches := r.detaches + 1)
  }

  /** The checks on the identifying fields, first or continuation transfer. */
  function Check(r: Rx, fr: Transfer): (f: Option<Failure>) {
    if !r.more then
      if fr.deliveryId.None? then Some(NoDeliveryId)
      else if fr.format.None? then Some(NoFormat)
      else if fr.tag.None? then Some(NoTag)
      else None
    else if fr.deliveryId.Some? && fr.deliveryId.value != r.msg.deliveryId then Some(OtherDeliveryId)
    else if fr.format.Some? && fr.format.value != r.msg.format then Some(OtherFormat)
    else if fr.tag.Some? && r.msg.tag != fr.tag then Some(OtherTag)
    else None
  }

  /** The identifying fields a first transfer records before they are checked. */
  function Record(p: Partial, fr: Transfer): (q: Partial) {
    Partial(if fr.deliveryId.Some? then fr.deliveryId.value else p.deliveryId,
            if fr.format.Some? then fr.format.value else p.format, fr.tag, p.settled)
  }

  /** The payload is taken in, and with the last transfer the message is complete. */
  function Take(r: Rx, fr: Transfer): (s: Rx) {
    var buf := r.buf + fr.payload;
    var msg := r.msg.(settled := r.msg.settled || fr.settled);
    if fr.more then r.(buf := buf, msg := msg, more := true)
    else match Unmarshal(buf)
      case Ok(m, _) =>
        r.(more := false, buf := [], msg := NO_MESSAGE,
           queue := r.queue + [Received(msg.deliveryId, msg.format, msg.tag, msg.settled, m)],
           unsettled := if msg.settled then r.unsettled else r.unsettled + 1,
           deliveryCount := Add32(r.deliveryCount, 1), linkCredit := Sub32(r.linkCredit, 1))
      case Err => Fail(r.(buf := buf, msg := msg, more := false), BadMessage)
      case Panic => r.(buf := buf, msg := msg, more := false, panicked := true)
  }

  /** muxReceive. */
  function Receive(r0: Rx, fr: Transfer): (r: Rx) {
    var r := if r0.more then r0 else r0.(msg := Record(r0.msg, fr));
    var bad := Check(r0, fr);
    if bad.Some? then Fail(r, bad.value)
    else if fr.aborted then r.(buf := [], msg := NO_MESSAGE, more := false)
    else if r.maxMessageSize != 0 && |r.buf| + |fr.payload| > r.maxMessageSize then Fail(r, TooLarge)
    else Take(r, fr)
  }

  /**
   The receiver's loop over the transfers that reach it. It is left once an error is recorded
   (Receiving.LocalErrorKept says when that fails on a receiver with automatic credit), and a
   panic takes the process with it.
   */
  function ReceiveAll(r: Rx, ts: seq<Transfer>): (s: Rx)
    decreases |ts|
  {
    if ts == [] || !Running(r) then r else ReceiveAll(Receive(r, ts[0]), ts[1..])
  }

  class Receiver {
    const maxMessageSize: uint64
    var more: bool
    var msgBuf: bytes
    var msg: Partial
    var queue: seq<Received>
    var deliveryCount: uint32
    var linkCredit: uint32
    var unsettled: int
    var closing: bool
    var doneErr: Option<Failure>
    var detaches: nat
    var panicked: bool

    constructor (maxMessageSize: uint64, deliveryCount: uint32, linkCredit: uint32)
      ensures State() == Rx(false, [], NO_MESSAGE, [], deliveryCount, linkCredit, 0, maxMessageSize, false, None, 0,
                        false)
    {
      this.maxMessageSize := maxMessageSize;
      more, msgBuf, msg, queue, unsettled := false, [], NO_MESSAGE, [], 0;
      this.deliveryCount, this.linkCredit := deliveryCount, linkCredit;
      closing, doneErr, detaches, panicked := false, None, 0, false;
    }

    ghost function State(): (r: Rx)
      reads this
    {
      Rx(more, msgBuf, msg, queue, deliveryCount, linkCredit, unsettled, maxMessageSize, closing, doneErr, detaches,
         panicked)
    }

    method CloseWithError(f: Failure)
      modifies this
      ensures State() == Fail(old(State()), f)
    {
      if closing { return; }
      closing, doneErr, detaches := true, Some(f), detaches + 1;
    }

    method CheckFields(fr: Transfer) returns (f: Option<Failure>)
      modifies this
      ensures f == old(Check(State(), fr))
      ensures State() == if old(more) then old(State()) else old(State().(msg := Record(msg, fr)))
    {
      if !more {
        if fr.deliveryId.Some? { msg := msg.(deliveryId := fr.deliveryId.value); }
        if fr.format.Some? { msg := msg.(format := fr.format.value); }
        msg := msg.(tag := fr.tag);
        if fr.deliveryId.None? { return Some(NoDeliveryId); }
        if fr.format.None? { return Some(NoFormat); }
        if fr.tag.None? { return Some(NoTag); }
      } else {
        if fr.deliveryId.Some? && fr.deliveryId.value != msg.deliveryId { return Some(OtherDeliveryId); }
        if fr.format.Some? && fr.format.value != msg.format { return Some(OtherFormat); }
        if fr.tag.Some? && msg.tag != fr.tag { return Some(OtherTag); }
      }
      return None;
    }

    /** muxReceive. */
    method MuxReceive(fr: Transfer)
      modifies this
      ensures State() == Receive(old(State()), fr)
    {
      hide Take;
      var f := CheckFields(fr);
      if f.Some? {
        CloseWithError(f.value);
      } else if fr.aborted {
        msgBuf, msg, more := [], NO_MESSAGE, false;
      } else if maxMessageSize != 0 && |msgBuf| + |fr.payload| > maxMessageSize {
        CloseWithError(TooLarge);
      } else {
        TakePayload(fr);
      }
    }

    method TakePayload(fr: Transfer)
      modifies this
      ensures State() == Take(old(State()), fr)
    {
      hide Unmarshal;
      msgBuf := msgBuf + fr.payload;
      msg := msg.(settled := msg.settled || fr.settled);
      more := fr.more;
      if fr.more { return; }
      var r := Unmarshal(msgBuf);
      if r.Err? {
        CloseWithError(BadMessage);
        return;
      }
      if r.Panic? {
        panicked := true;
        return;
      }
      if !msg.settled { unsettled := unsettled + 1; }
      queue := queue + [Received(msg.deliveryId, msg.format, msg.tag, msg.settled, r.val)];
      msgBuf, msg := [], NO_MESSAGE;
      deliveryCount, linkCredit := Add32(deliveryCount, 1), Sub32(linkCredit, 1);
    }
  }

  // ---- split and reassemble ----------------------------------------------------------

  predicate FitsReceiver(r: Rx, data: bytes) {
    r.maxMessageSize == 0 || |data| <= r.maxMessageSize
  }

  /** The receiver after one more message. */
  function Delivered(r: Rx, m: Outgoing, id: uint32, message: Message): (s: Rx) {
    r.(queue := r.queue + [Received(id, m.format, Some(m.tag), m.settled, message)],
       unsettled := if m.settled then r.unsettled else r.unsettled + 1,
       deliveryCount := Add32(r.deliveryCount, 1), linkCredit := Sub32(r.linkCredit, 1))
  }

  /** A delivery in progress: the bytes taken in so far. */
  function Midway(r: Rx, m: Outgoing, id: uint32, taken: bytes): (s: Rx) {
    if taken == [] then r else r.(more := true, buf := taken, msg := Partial(id, m.format, Some(m.tag), false))
  }

  /** The transfer of a piece as the session stamps it. */
  function StampedPiece(m: Outgoing, id: uint32, first: bool, payload: bytes, last: bool): (t: Transfer) {
    Transfer(m.handle, if first then Some(id) else None, if first then Some(m.tag) else None,
             if first then Some(m.format) else None, last && m.settled, !last, None, Null, false, false, false, payload)
  }

  /** A transfer that is not the last extends the bytes taken in. */
  lemma {:induction false} TakePiece(r: Rx, m: Outgoing, id: uint32, taken: bytes, payload: bytes)
    requires Idle(r) && payload != []
    ensures var s := Receive(Midway(r, m, id, taken), StampedPiece(m, id, taken == [], payload, false));
            if FitsReceiver(r, taken + payload) then s == Midway(r, m, id, taken + payload)
            else if r.closing then s.doneErr == r.doneErr && s.panicked == r.panicked
            else Refused(r, s, TooLarge)
  {
    hide Unmarshal;
  }

  /** The last transfer completes the message. */
  lemma {:induction false} TakeLast(r: Rx, m: Outgoing, id: uint32, taken: bytes, payload: bytes)
    requires Idle(r)
    ensures var s := Receive(Midway(r, m, id, taken), StampedPiece(m, id, taken == [], payload, true));
            if !FitsReceiver(r, taken + payload) then !r.closing ==> Refused(r, s, TooLarge)
            else match Unmarshal(taken + payload)
              case Ok(message, _) => s == Delivered(r, m, id, message)
              case Err => !r.closing ==> Refused(r, s, BadMessage)
              case Panic => Crashed(r, s)
  {
    hide Unmarshal;
    if taken == [] { assert taken + payload == payload; }
  }

  /** The link closes itself with the error and delivers nothing. */
  predicate Refused(r: Rx, s: Rx, f: Failure) {
    && s.doneErr == Some(f) && s.closing && s.detaches == r.detaches + 1
    && s.queue == r.queue && s.deliveryCount == r.deliveryCount && s.linkCredit == r.linkCredit
    && s.unsettled == r.unsettled && s.panicked == r.panicked
  }

  /** The process panics in the middle of the delivery: nothing is delivered and the peer is told nothing. */
  predicate Crashed(r: Rx, s: Rx) {
    && s.panicked && s.doneErr == r.doneErr && s.closing == r.closing && s.detaches == r.detaches
    && s.queue == r.queue && s.deliveryCount == r.deliveryCount && s.linkCredit == r.linkCredit
    && s.unsettled == r.unsettled
  }

  lemma {:induction false} StampSplit(m: Outgoing, rest: bytes, n: nat, first: bool, id: uint32)
    requires n > 0 && rest != []
    ensures var last := |rest| <= n;
            var payload := if last then rest else rest[..n];
            Stamp(Split(m, rest, n, first), id) ==
            [StampedPiece(m, id, first, payload, last)]
            + if last then [] else Stamp(Split(m, rest[n..], n, false), id)
  {
    var es := Split(m, rest, n, first);
    assert es[1..] == if |rest| > n then Split(m, rest[n..], n, false) else [];
  }

  lemma {:induction false} ReceiveStep(r: Rx, t: Transfer, ts: seq<Transfer>)
    requires Running(r)
    ensures ReceiveAll(r, [t] + ts) == ReceiveAll(Receive(r, t), ts)
  {
    assert ([t] + ts)[1..] == ts;
  }

  lemma {:induction false} ReceiveNone(r: Rx, ts: seq<Transfer>)
    requires ts == [] || !Running(r)
    ensures ReceiveAll(r, ts) == r
  {
  }

  /** Reassembly of what is left of a split message, whatever has been taken in before. */
  lemma {:induction false} Reassemble(r: Rx, m: Outgoing, id: uint32, taken: bytes, rest: bytes, n: nat)
    requires Idle(r) && Running(r) && n > 0 && rest != [] && FitsReceiver(r, taken)
    requires FitsReceiver(r, taken + rest) || !r.closing
    ensures var s := ReceiveAll(Midway(r, m, id, taken), Stamp(Split(m, rest, n, taken == []), id));
            if !FitsReceiver(r, taken + rest) then Refused(r, s, TooLarge)
            else match Unmarshal(taken + rest)
              case Ok(message, _) => s == Delivered(r, m, id, message)
              case Err => !r.closing ==> Refused(r, s, BadMessage)
              case Panic => Crashed(r, s)
    decreases |rest|
  {
    hide Receive, ReceiveAll, Unmarshal, Split, Stamp;
    StampSplit(m, rest, n, taken == [], id);
    var cur := Midway(r, m, id, taken);
    if |rest| <= n {
      var t := StampedPiece(m, id, taken == [], rest, true);
      assert [t] + [] == [t];
      ReceiveStep(cur, t, []);
      TakeLast(r, m, id, taken, rest);
      ReceiveNone(Receive(cur, t), []);
    } else {
      var payload := rest[..n];
      var t := StampedPiece(m, id, taken == [], payload, false);
      var tail := Stamp(Split(m, rest[n..], n, false), id);
      ReceiveStep(cur, t, tail);
      TakePiece(r, m, id, taken, payload);
      assert (taken + payload) + rest[n..] == taken + rest;
      if FitsReceiver(r, taken + payload) {
        Reassemble(r, m, id, taken + payload, rest[n..], n);
      } else {
        ReceiveNone(Receive(cur, t), tail);
      }
    }
  }

  /** A message to send, as its bytes and as the message they decode to. */
  datatype Sending = Sending(out: Outgoing, data: bytes, maxPayload: nat)

  predicate Decodable(x: Sending) {
    x.maxPayload > 0 && x.data != [] && Unmarshal(x.data).Ok?
  }

  function AllStamped(xs: seq<Sending>, id: uint32): (ts: seq<Transfer>)
    requires forall k | 0 <= k < |xs| :: Decodable(xs[k])
  {
    if xs == [] then []
    else assert Decodable(xs[0]); Stamp(Split(xs[0].out, xs[0].data, xs[0].maxPayload, true), id) + AllStamped(xs[1..], Add32(id, 1))
  }

  function AllDelivered(r: Rx, xs: seq<Sending>, id: uint32): (s: Rx)
    requires forall k | 0 <= k < |xs| :: Decodable(xs[k])
    decreases |xs|
  {
    if xs == [] then r
    else assert Decodable(xs[0]); AllDelivered(Delivered(r, xs[0].out, id, Unmarshal(xs[0].data).val), xs[1..], Add32(id, 1))
  }

  lemma {:induction false} ReceiveConcat(r: Rx, a: seq<Transfer>, b: seq<Transfer>)
    ensures ReceiveAll(r, a + b) == ReceiveAll(ReceiveAll(r, a), b)
    decreases |a|
  {
    hide Receive;
    if a == [] {
      assert a + b == b;
    } else if !Running(r) {
      ReceiveNone(r, a + b);
    } else {
      assert a == [a[0]] + a[1..] && a + b == [a[0]] + (a[1..] + b);
      ReceiveStep(r, a[0], a[1..] + b);
      ReceiveConcat(Receive(r, a[0]), a[1..], b);
    }
  }

  /**
   Splitting and reassembling are inverse over whole runs: any sequence of messages, each cut at
   its own frame size, arrives as exactly those messages in order, and the receiver is idle again.
   */
  lemma {:induction false} RunDelivers(r: Rx, xs: seq<Sending>, id: uint32)
    requires Idle(r) && Running(r)
    requires forall k | 0 <= k < |xs| :: Decodable(xs[k]) && FitsReceiver(r, xs[k].data)
    ensures ReceiveAll(r, AllStamped(xs, id)) == AllDelivered(r, xs, id)
    ensures Idle(AllDelivered(r, xs, id)) && |AllDelivered(r, xs, id).queue| == |r.queue| + |xs|
    decreases |xs|
  {
    hide Receive, ReceiveAll, Unmarshal, Split, Stamp;
    if xs == [] {
      ReceiveNone(r, []);
    } else {
      var x := xs[0];
      assert Decodable(x);
      var first := Stamp(Split(x.out, x.data, x.maxPayload, true), id);
      var s := Delivered(r, x.out, id, Unmarshal(x.data).val);
      assert [] + x.data == x.data;
      Reassemble(r, x.out, id, [], x.data, x.maxPayload);
      assert ReceiveAll(r, first) == s;
      ReceiveConcat(r, first, AllStamped(xs[1..], Add32(id, 1)));
      RunDelivers(s, xs[1..], Add32(id, 1));
    }
  }

  /** At most one detach, and the first error stays. */
  predicate ClosedOnce(r: Rx, s: Rx) {
    if r.closing then s.closing && s.detaches == r.detaches && s.doneErr == r.doneErr
    else && s.detaches == r.detaches + (if s.closing then 1 else 0)
         && (r.doneErr.None? ==> s.closing == s.doneErr.Some?)
  }

  lemma {:induction false} ReceiveClosesOnce(r: Rx, fr: Transfer)
    ensures ClosedOnce(r, Receive(r, fr))
  {
    hide Unmarshal, Check, Record;
  }

  /** The link closes itself at most once, with the first error found, whatever arrives. */
  lemma {:induction false} OneDetach(r: Rx, ts: seq<Transfer>)
    ensures ClosedOnce(r, ReceiveAll(r, ts))
    decreases |ts|
  {
    hide Receive;
    if ts != [] && Running(r) { ReceiveClosesOnce(r, ts[0]); }
    if ts != [] && Running(r) { OneDetach(Receive(r, ts[0]), ts[1..]); }
  }

  /** The transfers of a delivery that was stopped leave the receiver in the middle of it. */
  lemma {:induction false} StoppedMidway(r: Rx, m: Outgoing, id: uint32, taken: bytes, rest: bytes, n: nat, k: nat)
    requires Idle(r) && Running(r) && n > 0 && k * n < |rest| && FitsReceiver(r, taken + rest)
    ensures k < |Split(m, rest, n, taken == [])|
    ensures ReceiveAll(Midway(r, m, id, taken), Stamp(Split(m, rest, n, taken == []), id)[..k])
         == Midway(r, m, id, taken + rest[..k * n])
    decreases k
  {
    hide Receive, ReceiveAll, Split, Stamp;
    StampSplit(m, rest, n, taken == [], id);
    var ts := Stamp(Split(m, rest, n, taken == []), id);
    if k == 0 {
      assert ts[..0] == [] && taken + rest[..0] == taken;
      ReceiveNone(Midway(r, m, id, taken), []);
    } else {
      assert k * n == (k - 1) * n + n && 0 <= (k - 1) * n;
      var payload, left := rest[..n], rest[n..];
      var t := StampedPiece(m, id, taken == [], payload, false);
      var tail := Stamp(Split(m, left, n, false), id);
      StoppedMidway(r, m, id, taken + payload, left, n, k - 1) by { assert (taken + payload) + left == taken + rest; }
      assert ts[..k] == [t] + tail[..k - 1];
      ReceiveStep(Midway(r, m, id, taken), t, tail[..k - 1]);
      TakePiece(r, m, id, taken, payload);
      assert (taken + payload) + left[..(k - 1) * n] == taken + rest[..k * n];
    }
  }

  /**
   send gives up in the middle of a delivery without aborting it. The next delivery is then taken
   for a continuation: the receiver closes the link, exactly when some bytes had arrived.
   */
  lemma {:induction false} NextAfterStopped(r: Rx, m: Outgoing, id: uint32, data: bytes, n: nat, k: nat,
                                            next: Outgoing, nextId: uint32, more: bytes, last: bool)
    requires Idle(r) && Running(r) && !r.closing && n > 0 && k * n < |data| && FitsReceiver(r, data)
    requires nextId != id && FitsReceiver(r, more) && more != []
    requires last ==> Unmarshal(more).Ok?
    ensures k < |Split(m, data, n, true)|
    ensures var s := Receive(ReceiveAll(r, Stamp(Split(m, data, n, true), id)[..k]),
                             StampedPiece(next, nextId, true, more, last));
            if k > 0 then Refused(r, s, OtherDeliveryId) else Running(s)
  {
    hide ReceiveAll, Unmarshal, Split, Stamp;
    assert [] + data == data && [] + data[..k * n] == data[..k * n];
    StoppedMidway(r, m, id, [], data, n, k);
    if k > 0 {
      assert k * n > 0;
    } else {
      assert data[..k * n] == [] && [] + more == more;
      TakePiece(r, next, nextId, [], more);
      TakeLast(r, next, nextId, [], more);
    }
  }

  /** A delivery that never ends is undone by an aborted transfer, to the last field. */
  lemma {:induction false} AbortRestores(r: Rx, ts: seq<Transfer>, abort: Transfer)
    requires Idle(r) && Running(r)
    requires forall k | 0 <= k < |ts| :: ts[k].more && !ts[k].aborted
    requires var s := ReceiveAll(r, ts); s.doneErr.None? && abort.aborted && Check(s, abort).None?
    ensures Receive(ReceiveAll(r, ts), abort) == r
  {
    UnfinishedKeeps(r, ts);
  }

  lemma {:induction false} UnfinishedKeeps(r: Rx, ts: seq<Transfer>)
    requires Running(r) && ReceiveAll(r, ts).doneErr.None?
    requires forall k | 0 <= k < |ts| :: ts[k].more && !ts[k].aborted
    ensures var s := ReceiveAll(r, ts); s == r.(more := s.more, buf := s.buf, msg := s.msg)
    decreases |ts|
  {
    if ts != [] && Receive(r, ts[0]).doneErr.None? { UnfinishedKeeps(Receive(r, ts[0]), ts[1..]); }
  }

  /**
   What a split looks like: the pieces hold the bytes in order, none above the limit; only the
   first asks for an id and carries tag and format, only the last ends the delivery, and it alone
   may be settled.
   */
  lemma {:induction false} SplitShape(m: Outgoing, rest: bytes, n: nat, first: bool)
    requires n > 0
    ensures var es := Split(m, rest, n, first);
            && Payloads(es) == rest && (es == [] <==> rest == [])
            && forall k | 0 <= k < |es| :: PieceIs(es[k], m, n, first && k == 0, k == |es| - 1)
    decreases |rest|
  {
    hide Split, Piece, PieceIs, Payloads;
    if rest == [] {
      SplitNothing(m, n, first);
      PayloadsNone();
    } else {
      var payload, left := if |rest| > n then rest[..n] else rest, if |rest| > n then rest[n..] else [];
      assert rest == payload + left;
      SplitStep(m, rest, n, first, payload, left);
      SplitShape(m, left, n, false);
      var es, tail := Split(m, rest, n, first), Split(m, left, n, false);
      PayloadsMore(Piece(m, rest, n, first), tail);
      PieceHas(m, rest, n, first);
      forall k | 0 <= k < |es| ensures PieceIs(es[k], m, n, first && k == 0, k == |es| - 1) {
        if k > 0 { assert es[k] == tail[k - 1]; }
      }
    }
  }

  predicate PieceIs(e: Envelope, m: Outgoing, n: nat, first: bool, last: bool) {
    && 0 < |e.frame.payload| <= n
    && e.needsId == e.frame.tag.Some? == e.frame.format.Some? == first
    && e.completes == !e.frame.more == last
    && (e.frame.settled ==> last && m.settled)
  }

  lemma {:induction false} PieceHas(m: Outgoing, rest: bytes, n: nat, first: bool)
    requires n > 0 && rest != []
    ensures PieceIs(Piece(m, rest, n, first), m, n, first, |rest| <= n)
  {
  }

  lemma {:induction false} PayloadsNone()
    ensures Payloads([]) == []
  {
  }

  lemma {:induction false} PayloadsMore(e: Envelope, es: seq<Envelope>)
    ensures Payloads([e] + es) == e.frame.payload + Payloads(es)
  {
    assert ([e] + es)[1..] == es;
  }

  function Payloads(es: seq<Envelope>): (s: bytes) {
    if es == [] then [] else es[0].frame.payload + Payloads(es[1..])
  }
}
