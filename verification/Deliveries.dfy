/** Deliveries as any peer may send them: however the fields and flags are spread over the transfers. */
module Deliveries {
  import opened Words
  import opened Decoder
  import opened Frames
  import opened Messages
  import opened Delivery

  // ---- what a delivery is ------------------------------------------------------------

  predicate Identified(t: Transfer) {
    t.deliveryId.Some? && t.format.Some? && t.tag.Some?
  }

  /** A continuation may leave the identifying fields off, or repeat them. */
  predicate Agrees(t: Transfer, first: Transfer) {
    && (t.deliveryId.Some? ==> t.deliveryId == first.deliveryId)
    && (t.format.Some? ==> t.format == first.format)
    && (t.tag.Some? ==> t.tag == first.tag)
  }

  /** The beginning of a delivery: transfers that go together, with more to come. */
  predicate Begun(ts: seq<Transfer>) {
    && ts != [] && Identified(ts[0])
    && forall k | 0 <= k < |ts| :: ts[k].more && !ts[k].aborted && Agrees(ts[k], ts[0])
  }

  /** All of it: the beginning, if there is one, and the transfer that ends it. */
  predicate Whole(ts: seq<Transfer>, last: Transfer) {
    && !last.more && !last.aborted
    && if ts == [] then Identified(last) else Begun(ts) && Agrees(last, ts[0])
  }

  function Bytes(ts: seq<Transfer>): (s: bytes) {
    if ts == [] then [] else Bytes(ts[..|ts| - 1]) + ts[|ts| - 1].payload
  }

  predicate AnySettled(ts: seq<Transfer>) {
    exists k :: 0 <= k < |ts| && ts[k].settled
  }

  // ---- taking it in ------------------------------------------------------------------

  /** The receiver in the middle of the delivery: its fields, its bytes, and whether it is settled so far. */
  function Amid(r: Rx, ts: seq<Transfer>): (s: Rx)
    requires ts != [] ==> Identified(ts[0])
  {
    if ts == [] then r
    else r.(more := true, buf := Bytes(ts),
            msg := Partial(ts[0].deliveryId.value, ts[0].format.value, ts[0].tag, AnySettled(ts)))
  }

  lemma {:induction false} SettledMore(ts: seq<Transfer>, t: Transfer)
    ensures AnySettled(ts + [t]) <==> AnySettled(ts) || t.settled
    ensures Bytes(ts + [t]) == Bytes(ts) + t.payload
  {
    assert (ts + [t])[..|ts|] == ts;
    if AnySettled(ts) {
      var k :| 0 <= k < |ts| && ts[k].settled;
      assert (ts + [t])[k].settled;
    }
    if t.settled { assert (ts + [t])[|ts|].settled; }
  }

  /** One more transfer of the delivery, not the last. */
  lemma {:induction false} OneMore(r: Rx, ts: seq<Transfer>, t: Transfer)
    requires Idle(r) && Begun(ts + [t]) && FitsReceiver(r, Bytes(ts + [t]))
    ensures ts != [] ==> Begun(ts)
    ensures Receive(Amid(r, ts), t) == Amid(r, ts + [t])
  {
    hide Unmarshal, Bytes, AnySettled;
    SettledMore(ts, t);
    var all := ts + [t];
    assert all[|ts|] == t;
    if ts == [] {
      assert Bytes(ts) == [] && !AnySettled(ts) by { NothingYet(); }
    } else {
      assert all[0] == ts[0];
      forall k | 0 <= k < |ts| ensures ts[k].more && !ts[k].aborted && Agrees(ts[k], ts[0]) { assert all[k] == ts[k]; }
    }
  }

  lemma {:induction false} NothingYet()
    ensures Bytes([]) == [] && !AnySettled([])
  {
  }

  lemma {:induction false} FitsLess(r: Rx, ts: seq<Transfer>, t: Transfer)
    requires FitsReceiver(r, Bytes(ts + [t]))
    ensures FitsReceiver(r, Bytes(ts))
  {
    hide Bytes;
    SettledMore(ts, t);
  }

  /** The beginning of a delivery is taken in, byte by byte and flag by flag. */
  lemma {:induction false} BegunTakenIn(r: Rx, ts: seq<Transfer>)
    requires Idle(r) && Running(r) && (ts == [] || Begun(ts)) && FitsReceiver(r, Bytes(ts))
    ensures ReceiveAll(r, ts) == Amid(r, ts)
    decreases |ts|
  {
    hide Receive, ReceiveAll, Bytes, AnySettled, FitsReceiver;
    if ts == [] {
      ReceiveNone(r, ts);
    } else {
      var before, t := ts[..|ts| - 1], ts[|ts| - 1];
      assert ts == before + [t];
      FitsLess(r, before, t);
      OneMore(r, before, t);
      BegunTakenIn(r, before);
      ReceiveConcat(r, before, [t]);
      assert [t] + [] == [t];
      ReceiveStep(Amid(r, before), t, []);
      ReceiveNone(Receive(Amid(r, before), t), []);
    }
  }

  lemma {:induction false} LastTaken(r: Rx, ts: seq<Transfer>, last: Transfer)
    requires Idle(r) && Whole(ts, last) && FitsReceiver(r, Bytes(ts + [last]))
    ensures var first := if ts == [] then last else ts[0];
            var s := Receive(Amid(r, ts), last);
            match Unmarshal(Bytes(ts + [last]))
            case Ok(m, _) =>
              s == r.(queue := r.queue + [Received(first.deliveryId.value, first.format.value, first.tag,
                                                   AnySettled(ts + [last]), m)],
                      unsettled := if AnySettled(ts + [last]) then r.unsettled else r.unsettled + 1,
                      deliveryCount := Add32(r.deliveryCount, 1), linkCredit := Sub32(r.linkCredit, 1))
            case Err => !r.closing ==> Refused(r, s, BadMessage)
            case Panic => Crashed(r, s)
  {
    hide Unmarshal, Bytes, AnySettled, Add32, Sub32;
    SettledMore(ts, last);
    if ts == [] { NothingYet(); }
  }

  /**
   Any delivery, whichever transfers carry its fields and its settled flag: exactly one message is
   queued, made of the payloads joined, with the first transfer's id, format and tag, and settled if and
   only if some transfer said so; it is counted, and the receiver is idle again. If its bytes do not
   decode the link is closed, and if decoding panics the process ends.
   */
  lemma {:induction false} AnyDelivery(r: Rx, ts: seq<Transfer>, last: Transfer)
    requires Idle(r) && Running(r) && Whole(ts, last) && FitsReceiver(r, Bytes(ts + [last]))
    ensures var first := if ts == [] then last else ts[0];
            var s := ReceiveAll(r, ts + [last]);
            match Unmarshal(Bytes(ts + [last]))
            case Ok(m, _) =>
              s == r.(queue := r.queue + [Received(first.deliveryId.value, first.format.value, first.tag,
                                                   AnySettled(ts + [last]), m)],
                      unsettled := if AnySettled(ts + [last]) then r.unsettled else r.unsettled + 1,
                      deliveryCount := Add32(r.deliveryCount, 1), linkCredit := Sub32(r.linkCredit, 1))
            case Err => !r.closing ==> Refused(r, s, BadMessage)
            case Panic => Crashed(r, s)
  {
    hide Receive, ReceiveAll, Unmarshal, Bytes, AnySettled, Add32, Sub32, FitsReceiver;
    FitsLess(r, ts, last);
    BegunTakenIn(r, ts);
    ReceiveConcat(r, ts, [last]);
    assert [last] + [] == [last];
    AmidRuns(r, ts);
    ReceiveStep(Amid(r, ts), last, []);
    ReceiveNone(Receive(Amid(r, ts), last), []);
    LastTaken(r, ts, last);
  }

  lemma {:induction false} AmidRuns(r: Rx, ts: seq<Transfer>)
    requires Running(r) && (ts != [] ==> Identified(ts[0]))
    ensures Running(Amid(r, ts))
  {
    hide Bytes, AnySettled;
  }

  // ---- what is refused ---------------------------------------------------------------

  /** What is wrong with a transfer in its place, in the order the fields are looked at. */
  function Wrong(ts: seq<Transfer>, t: Transfer): (f: Option<Failure>) {
    if ts == [] then
      if t.deliveryId == None then Some(NoDeliveryId)
      else if t.format == None then Some(NoFormat)
      else if t.tag == None then Some(NoTag)
      else None
    else if t.deliveryId != None && t.deliveryId != ts[0].deliveryId then Some(OtherDeliveryId)
    else if t.format != None && t.format != ts[0].format then Some(OtherFormat)
    else if t.tag != None && t.tag != ts[0].tag then Some(OtherTag)
    else None
  }

  /**
   After the beginning of any delivery, or none, a transfer that lacks an identifying field where one is
   due, or gives one that differs, closes the link with that error, and nothing is delivered.
   */
  lemma {:induction false} WrongRefused(r: Rx, ts: seq<Transfer>, t: Transfer)
    requires Idle(r) && Running(r) && !r.closing && (ts == [] || Begun(ts)) && FitsReceiver(r, Bytes(ts))
    requires Wrong(ts, t).Some?
    ensures Refused(r, ReceiveAll(r, ts + [t]), Wrong(ts, t).value)
  {
    hide Receive, ReceiveAll, Bytes, AnySettled, FitsReceiver;
    BegunTakenIn(r, ts);
    ReceiveConcat(r, ts, [t]);
    assert [t] + [] == [t];
    AmidRuns(r, ts);
    ReceiveStep(Amid(r, ts), t, []);
    ReceiveNone(Receive(Amid(r, ts), t), []);
    WrongTaken(r, ts, t);
  }

  lemma {:induction false} WrongTaken(r: Rx, ts: seq<Transfer>, t: Transfer)
    requires Idle(r) && !r.closing && (ts == [] || Begun(ts)) && Wrong(ts, t).Some?
    ensures Refused(r, Receive(Amid(r, ts), t), Wrong(ts, t).value)
  {
    hide Unmarshal, Bytes, AnySettled, Take;
  }

  /** A transfer in its place that makes the message too large does the same. */
  lemma {:induction false} TooLargeRefused(r: Rx, ts: seq<Transfer>, t: Transfer)
    requires Idle(r) && Running(r) && !r.closing && (ts == [] || Begun(ts)) && FitsReceiver(r, Bytes(ts))
    requires Wrong(ts, t).None? && !t.aborted && !FitsReceiver(r, Bytes(ts + [t]))
    ensures Refused(r, ReceiveAll(r, ts + [t]), TooLarge)
  {
    hide Receive, ReceiveAll, Bytes, AnySettled;
    BegunTakenIn(r, ts);
    ReceiveConcat(r, ts, [t]);
    assert [t] + [] == [t];
    AmidRuns(r, ts);
    ReceiveStep(Amid(r, ts), t, []);
    ReceiveNone(Receive(Amid(r, ts), t), []);
    LargeTaken(r, ts, t);
  }

  lemma {:induction false} LargeTaken(r: Rx, ts: seq<Transfer>, t: Transfer)
    requires Idle(r) && !r.closing && (ts == [] || Begun(ts)) && Wrong(ts, t).None? && !t.aborted
    requires !FitsReceiver(r, Bytes(ts + [t]))
    ensures Refused(r, Receive(Amid(r, ts), t), TooLarge)
  {
    hide Unmarshal, Bytes, AnySettled, Take;
    SettledMore(ts, t);
    if ts == [] { NothingYet(); }
  }

  /** An aborted transfer, at any point of any delivery, leaves the receiver as it was before it. */
  lemma {:induction false} AbortedAnywhere(r: Rx, ts: seq<Transfer>, t: Transfer)
    requires Idle(r) && Running(r) && (ts == [] || Begun(ts)) && FitsReceiver(r, Bytes(ts))
    requires Wrong(ts, t).None? && t.aborted
    ensures ReceiveAll(r, ts + [t]) == r
  {
    hide Receive, ReceiveAll, Bytes, AnySettled, FitsReceiver;
    BegunTakenIn(r, ts);
    ReceiveConcat(r, ts, [t]);
    assert [t] + [] == [t];
    AmidRuns(r, ts);
    ReceiveStep(Amid(r, ts), t, []);
    ReceiveNone(Receive(Amid(r, ts), t), []);
    AbortTaken(r, ts, t);
  }

  lemma {:induction false} AbortTaken(r: Rx, ts: seq<Transfer>, t: Transfer)
    requires Idle(r) && (ts == [] || Begun(ts)) && Wrong(ts, t).None? && t.aborted
    ensures Receive(Amid(r, ts), t) == r
  {
    hide Unmarshal, Bytes, AnySettled, Take;
  }
}
