/** The session mux as an object: each case of the select, updating the maps and counters in place. */
module SessionMux {
  import opened Words
  import opened Values
  import opened Frames
  import Delivery
  import opened Session
  import opened SessionRuns

  class SessionState {
    // maps of handles and numbers
    var links: map<uint32, Link>
    var inputHandles: map<Link, uint32>
    var localHandles: map<uint32, uint32>
    var remoteHandles: map<uint32, uint32>
    var outputIds: map<uint32, uint32>
    var nextDeliveryId: uint32
    // completion channels
    var settlements: map<uint32, nat>
    var channels: map<nat, Channel>
    var completions: seq<Completion>
    var channelPanic: bool
    // flow control values
    var nextOutgoingId: uint32
    var nextIncomingId: uint32
    var remoteIncomingWindow: uint32
    var remoteOutgoingWindow: uint32
    var needFlowCount: uint32
    const incomingWindow: uint32
    const outgoingWindow: uint32
    // the End handshake
    var closeInProgress: bool
    var endSent: bool
    var doneErr: Option<Reason>
    var exited: bool
    var endPanic: bool
    // output
    var sent: seq<Sent>
    var forwarded: seq<Forward>

    constructor (remoteBegin: Begin)
      ensures State() == Start(remoteBegin)
    {
      links, inputHandles, localHandles, remoteHandles, outputIds := map[], map[], map[], map[], map[];
      settlements, channels, completions, channelPanic := map[], map[], [], false;
      nextDeliveryId, nextOutgoingId, nextIncomingId := 0, 0, remoteBegin.nextOutgoingId;
      remoteIncomingWindow, remoteOutgoingWindow := remoteBegin.incomingWindow, remoteBegin.outgoingWindow;
      needFlowCount, incomingWindow, outgoingWindow := 0, DEFAULT_WINDOW, DEFAULT_WINDOW;
      closeInProgress, endSent, doneErr, exited, endPanic := false, false, None, false, false;
      sent, forwarded := [], [];
    }

    ghost function TablesNow(): (t: Tables)
      reads this`links, this`inputHandles, this`localHandles, this`remoteHandles, this`outputIds, this`nextDeliveryId
    {
      Tables(links, inputHandles, localHandles, remoteHandles, outputIds, nextDeliveryId)
    }

    ghost function LedgerNow(): (g: Ledger)
      reads this`settlements, this`channels, this`completions, this`channelPanic
    {
      Ledger(settlements, channels, completions, channelPanic)
    }

    ghost function WindowsNow(): (w: Windows)
      reads this`nextOutgoingId, this`nextIncomingId, this`remoteIncomingWindow, this`remoteOutgoingWindow, this`needFlowCount
    {
      Windows(nextOutgoingId, nextIncomingId, remoteIncomingWindow, remoteOutgoingWindow, needFlowCount,
              incomingWindow, outgoingWindow)
    }

    ghost function LifeNow(): (l: Life)
      reads this`closeInProgress, this`endSent, this`doneErr, this`exited, this`endPanic, this`sent
    {
      Life(closeInProgress, endSent, doneErr, exited, endPanic, sent)
    }

    ghost function State(): (st: Mux)
      reads this
    {
      Mux(TablesNow(), LedgerNow(), WindowsNow(), LifeNow(), forwarded)
    }

    // ---- shared pieces ---------------------------------------------------------------

    method TxFrame(f: Sent)
      modifies this`sent
      ensures LifeNow() == Send(old(LifeNow()), f)
    {
      sent := sent + [f];
    }

    method SendEnd(fault: Option<Fault>)
      modifies this`closeInProgress, this`sent, this`endSent, this`endPanic
      ensures LifeNow() == EndNow(old(LifeNow()), fault)
    {
      closeInProgress := true;
      TxFrame(SentEnd(fault));
      if endSent { endPanic := true; } else { endSent := true; }
    }

    method FailWith(fault: Fault)
      modifies this`closeInProgress, this`sent, this`endSent, this`endPanic, this`doneErr
      ensures LifeNow() == CloseWithError(old(LifeNow()), fault)
    {
      if closeInProgress { return; }
      doneErr := Some(LocalFault(fault));
      SendEnd(Some(fault));
    }

    method MuxFrameToLink(l: Link, e: Event)
      modifies this`forwarded
      ensures forwarded == old(forwarded) + [Forward(l, e)]
    {
      forwarded := forwarded + [Forward(l, e)];
    }

    method CloseDone(state: Option<Value>, done: Completion)
      modifies this`channels, this`completions, this`channelPanic
      ensures LedgerNow() == CloseChannel(old(LedgerNow()), state, done)
    {
      var c := done.channel;
      if c !in channels || channels[c].closed {
        channelPanic := true;
        return;
      }
      if channels[c].buffer.None? { channels := channels[c := Channel(state, false)]; }
      channels := channels[c := channels[c].(closed := true)];
      completions := completions + [done];
      assert channels == old(channels)[c := channels[c]];
    }

    method CompleteDelivery(id: uint32, cause: Cause)
      requires !cause.BySender?
      modifies this`settlements, this`channels, this`completions, this`channelPanic
      ensures LedgerNow() == Complete(old(LedgerNow()), id, cause)
    {
      if id in settlements {
        var done := settlements[id];
        settlements := settlements - {id};
        CloseDone(Some(cause.disposition.state), Completion(done, id, cause));
      }
    }

    // ---- received frames -------------------------------------------------------------

    /** Disposition: to every link whose delivery is in the range. */
    method OnDisposition(d: Disposition)
      requires Finite(d)
      modifies this
      ensures State() == SettleFrom(old(State()), d, d.first)
    {
      hide SettleAt;
      var end := if d.last.Some? then d.last.value else d.first;
      var id := d.first;
      while id <= end
        invariant id <= MOD32 - 1
        invariant SettleFrom(State(), d, id) == SettleFrom(old(State()), d, d.first)
        decreases end - id
      {
        OneDisposition(d, id);
        id := id + 1;
      }
    }

    method OneDisposition(d: Disposition, id: uint32)
      modifies this`localHandles, this`remoteHandles, this`settlements, this`channels, this`completions, this`channelPanic,
               this`closeInProgress, this`sent, this`endSent, this`endPanic, this`doneErr, this`forwarded
      ensures State() == SettleAt(old(State()), d, id)
    {
      hide Complete, CloseWithError, HandleOf, DropHandle, TablesNow, LedgerNow, WindowsNow, LifeNow;
      TablesLinks();
      var h := FindHandle(d, id);
      if h.None? { return; }
      RemoveHandle(d, id);
      if d.settled && d.role { CompleteDelivery(id, ByReceiver(d)); }
      if h.value !in links {
        FailWith(UnknownDisposition);
      } else {
        MuxFrameToLink(links[h.value], RxDisposition(d));
      }
    }

    method FindHandle(d: Disposition, id: uint32) returns (h: Option<uint32>)
      ensures h == HandleOf(TablesNow(), d, id)
    {
      var handles := if d.role then localHandles else remoteHandles;
      h := if id in handles then Some(handles[id]) else None;
    }

    method RemoveHandle(d: Disposition, id: uint32)
      modifies this`localHandles, this`remoteHandles
      ensures TablesNow() == DropHandle(old(TablesNow()), d, id)
    {
      if d.role { localHandles := localHandles - {id}; } else { remoteHandles := remoteHandles - {id}; }
    }

    method ReceiveFlow(f: Flow)
      modifies this`nextIncomingId, this`remoteOutgoingWindow, this`remoteIncomingWindow, this`closeInProgress, this`sent, this`endSent, this`endPanic, this`doneErr, this`forwarded
      ensures State() == OnFlow(old(State()), f)
    {
      hide CloseWithError, FlowReceived, Send, TablesNow, LedgerNow;
      TablesLinks();
      if f.nextIncomingId.None? {
        FailWith(NoNextIncomingId);
        return;
      }
      UpdateWindows(f);
      if f.handle.Some? {
        if f.handle.value !in links {
          FailWith(UnknownFlow);
        } else {
          MuxFrameToLink(links[f.handle.value], RxFlow(f));
        }
        return;
      }
      if f.echo && !closeInProgress {
        TxFrame(SentFlow(Flow(Some(nextIncomingId), incomingWindow, nextOutgoingId, outgoingWindow,
                              None, None, None, None, false, false, Null)));
      }
    }

    method UpdateWindows(f: Flow)
      requires f.nextIncomingId.Some?
      modifies this`nextIncomingId, this`remoteOutgoingWindow, this`remoteIncomingWindow
      ensures WindowsNow() == FlowReceived(old(WindowsNow()), f)
    {
      nextIncomingId, remoteOutgoingWindow := f.nextOutgoingId, f.outgoingWindow;
      remoteIncomingWindow := Sub32(f.incomingWindow, nextOutgoingId);
      remoteIncomingWindow := Add32(remoteIncomingWindow, f.nextIncomingId.value);
    }

    lemma {:induction false} TablesLinks()
      ensures TablesNow().links == links
    {
    }

    method ReceiveAttach(handle: uint32, link: Option<Link>)
      modifies this`inputHandles, this`links, this`forwarded, this`closeInProgress, this`sent, this`endSent, this`endPanic, this`doneErr
      ensures State() == OnAttach(old(State()), handle, link)
    {
      hide CloseWithError, LedgerNow, WindowsNow, LifeNow;
      if link.None? {
        FailWith(MismatchedAttach);
        return;
      }
      inputHandles := inputHandles[link.value := handle];
      links := links[handle := link.value];
      MuxFrameToLink(link.value, RxAttach(handle, link));
    }

    method ReceiveTransfer(t: Transfer, second: bool)
      modifies this`needFlowCount, this`nextIncomingId, this`remoteOutgoingWindow, this`remoteHandles, this`forwarded,
               this`closeInProgress, this`sent, this`endSent, this`endPanic, this`doneErr
      ensures State() == OnTransfer(old(State()), t, second)
    {
      hide CloseWithError, Regrant, TransferReceived, TablesNow, LedgerNow, WindowsNow, LifeNow;
      TablesLinks();
      CountTransfer();
      if t.handle !in links {
        FailWith(UnknownTransfer);
        return;
      }
      MuxFrameToLink(links[t.handle], RxTransfer(t, second));
      if !t.settled && t.deliveryId.Some? && second { RememberRemote(t.deliveryId.value, t.handle); }
      UpdatePeerWindow();
    }

    method RememberRemote(id: uint32, handle: uint32)
      modifies this`remoteHandles
      ensures TablesNow() == old(TablesNow()).(remoteHandles := old(TablesNow()).remoteHandles[id := handle])
    {
      remoteHandles := remoteHandles[id := handle];
    }

    method CountTransfer()
      modifies this`needFlowCount, this`nextIncomingId, this`remoteOutgoingWindow
      ensures WindowsNow() == TransferReceived(old(WindowsNow()))
    {
      needFlowCount := Add32(needFlowCount, 1);
      nextIncomingId := Add32(nextIncomingId, 1);
      if remoteOutgoingWindow > 0 { remoteOutgoingWindow := remoteOutgoingWindow - 1; }
    }

    method UpdatePeerWindow()
      modifies this`needFlowCount, this`sent
      ensures State() == Regrant(old(State()))
    {
      if needFlowCount >= incomingWindow / 2 && !closeInProgress {
        needFlowCount := 0;
        TxFrame(SentFlow(Flow(Some(nextIncomingId), incomingWindow, nextOutgoingId, outgoingWindow,
                              None, None, None, None, false, false, Null)));
      }
    }

    method ReceiveDetach(handle: uint32)
      modifies this`links, this`outputIds, this`forwarded, this`closeInProgress, this`sent, this`endSent, this`endPanic, this`doneErr
      ensures State() == OnDetach(old(State()), handle)
    {
      hide CloseWithError, LedgerNow, WindowsNow, LifeNow;
      if handle !in links {
        FailWith(UnknownDetach);
        return;
      }
      var l := links[handle];
      MuxFrameToLink(l, RxDetach(handle));
      if l in inputHandles { links := links - {inputHandles[l]}; }
      outputIds := outputIds - {l.outputHandle};
    }

    method ReceiveEnd(error: Value)
      modifies this`doneErr, this`sent, this`exited
      ensures LifeNow() == EndReceived(old(LifeNow()), error)
    {
      if !closeInProgress {
        if error != Null { doneErr := Some(RemoteError(error)); }
        TxFrame(SentEnd(None));
      }
      exited := true;
    }

    // ---- sent frames -----------------------------------------------------------------

    method SendTransfer(env: Delivery.Envelope, inputHandle: uint32, done: nat, outcome: Outcome)
      modifies this`nextDeliveryId, this`outputIds, this`localHandles, this`settlements, this`channels, this`completions, this`channelPanic,
               this`nextOutgoingId, this`remoteIncomingWindow, this`sent
      ensures State() == OnSend(old(State()), env, inputHandle, done, outcome)
    {
      hide AwaitCompletion, Number, IdFor, TransferWritten, Send, TablesNow, LedgerNow, WindowsNow, LifeNow;
      var fr, deliveryId := NumberTransfer(env, inputHandle);
      if !outcome.Written? { return; }
      TxFrame(SentTransfer(fr));
      if env.completes { Await(deliveryId, done, fr.settled); }
      CountWritten();
    }

    method CountWritten()
      modifies this`nextOutgoingId, this`remoteIncomingWindow
      ensures WindowsNow() == TransferWritten(old(WindowsNow()))
    {
      nextOutgoingId := Add32(nextOutgoingId, 1);
      if remoteIncomingWindow != 0 { remoteIncomingWindow := remoteIncomingWindow - 1; }
    }

    method NumberTransfer(env: Delivery.Envelope, inputHandle: uint32) returns (fr: Transfer, deliveryId: uint32)
      modifies this`nextDeliveryId, this`outputIds, this`localHandles
      ensures TablesNow() == Number(old(TablesNow()), env, inputHandle)
      ensures deliveryId == IdFor(old(TablesNow()), env) && fr == Numbered(env, deliveryId)
    {
      deliveryId := 0;
      fr := env.frame;
      if env.needsId {
        deliveryId := nextDeliveryId;
        fr := fr.(deliveryId := Some(deliveryId));
        nextDeliveryId := Add32(nextDeliveryId, 1);
        outputIds := outputIds[fr.handle := deliveryId];
        if !fr.settled { localHandles := localHandles[deliveryId := inputHandle]; }
      } else if fr.handle in outputIds {
        deliveryId := outputIds[fr.handle];
      }
      if fr.settled { localHandles := localHandles - {deliveryId}; }
    }

    method Await(id: uint32, done: nat, settled: bool)
      modifies this`settlements, this`channels, this`completions, this`channelPanic
      ensures LedgerNow() == AwaitCompletion(old(LedgerNow()), id, done, settled)
    {
      hide CloseChannel;
      channels := channels[done := Channel(None, false)];
      if !settled {
        settlements := settlements[id := done];
      } else {
        CloseDone(None, Completion(done, id, BySender));
      }
    }

    method SendDisposition(d: Disposition)
      requires Finite(d)
      modifies this`settlements, this`channels, this`completions, this`channelPanic, this`sent
      ensures State() == OnSendDisposition(old(State()), d)
    {
      hide Complete, TablesNow, LedgerNow, WindowsNow, LifeNow, Send;
      if d.settled && !d.role {
        var end := if d.last.Some? then d.last.value else d.first;
        var id := d.first;
        while id <= end
          invariant id <= MOD32 - 1
          invariant ConfirmFrom(LedgerNow(), d, id) == ConfirmFrom(old(LedgerNow()), d, d.first)
          invariant TablesNow() == old(TablesNow()) && WindowsNow() == old(WindowsNow())
          invariant LifeNow() == old(LifeNow()) && forwarded == old(forwarded)
          decreases end - id
        {
          CompleteDelivery(id, ByConfirmation(d));
          id := id + 1;
        }
      }
      TxFrame(SentDisposition(d));
    }

    /** One pass through the select. */
    method Pass(e: Event)
      requires Enabled(State(), e)
      modifies this
      ensures State() == Step(old(State()), e)
    {
      hide SettleFrom, OnFlow, OnAttach, OnTransfer, OnDetach, OnSend, OnSendDisposition, EndNow, EndReceived, CloseWithError,
           Send, TablesNow, LedgerNow;
      match e {
        case ConnDone => doneErr, exited := Some(ConnectionError), true;
        case CloseCall => SendEnd(None);
        case RxDisposition(d) => OnDisposition(d);
        case RxFlow(f) => ReceiveFlow(f);
        case RxAttach(handle, link) => ReceiveAttach(handle, link);
        case RxTransfer(t, second) => ReceiveTransfer(t, second);
        case RxDetach(handle) => ReceiveDetach(handle);
        case RxEnd(error) => ReceiveEnd(error);
        case RxOther => FailWith(UnexpectedFrame);
        case TxTransfer(env, inputHandle, done, outcome) => SendTransfer(env, inputHandle, done, outcome);
        case TxDisposition(d) => SendDisposition(d);
        case TxFlow(f) =>
          TxFrame(SentFlow(f.(nextIncomingId := Some(nextIncomingId), incomingWindow := incomingWindow,
                              nextOutgoingId := nextOutgoingId, outgoingWindow := outgoingWindow)));
        case TxOther => TxFrame(SentOther);
      }
    }

    /**
     The mux over any run of events: it sends at most one End, every completion channel is told what
     its delivery came to, and window and next id add up to the peer's latest grant.
     */
    method Drive(es: seq<Event>)
      requires ValidRun(State(), es) && EndOnce(LifeNow()) && Sound(LedgerNow())
      modifies this
      ensures State() == Run(old(State()), es)
      ensures EndOnce(LifeNow()) && Sound(LedgerNow()) && old(LedgerNow()).completions <= LedgerNow().completions
      ensures Add32(remoteIncomingWindow, nextOutgoingId)
           == LatestGrant(old(Add32(remoteIncomingWindow, nextOutgoingId)), es)
    {
      hide Step, Run, ValidRun, Enabled, EndOnce, Sound, LatestGrant, Add32, LedgerNow, LifeNow, TablesNow;
      EndOnceRun(State(), es);
      SoundRun(State(), es);
      CompletionsGrow(State(), es);
      GrantRun(State(), es, Add32(remoteIncomingWindow, nextOutgoingId));
      RunsOut(State(), es);
      var k := 0;
      while k < |es|
        invariant 0 <= k <= |es| && ValidRun(State(), es[k..])
        invariant Run(State(), es[k..]) == Run(old(State()), es)
      {
        RunFrom(State(), es, k);
        Pass(es[k]);
        k := k + 1;
      }
      RunsOut(State(), es[k..]);
    }
  }

  lemma {:induction false} RunFrom(st: Mux, es: seq<Event>, k: nat)
    requires k < |es| && ValidRun(st, es[k..])
    ensures Enabled(st, es[k]) && ValidRun(Step(st, es[k]), es[k + 1..])
    ensures Run(st, es[k..]) == Run(Step(st, es[k]), es[k + 1..])
  {
    hide Step, Enabled;
    assert es[k..][1..] == es[k + 1..];
  }

  lemma {:induction false} RunsOut(st: Mux, es: seq<Event>)
    ensures es == [] ==> Run(st, es) == st
    ensures es[0..] == es && es[|es|..] == []
  {
  }

  /**
   A session from the peer's begin on: with a peer whose grants never fall behind, the window is the
   exact distance to its edge; and one whose flows are honest always has room to send.
   */
  method Serve(remoteBegin: Begin, es: seq<Event>, ghost edges: seq<int>) returns (s: SessionState)
    requires ValidRun(Start(remoteBegin), es)
    ensures fresh(s) && s.State() == Run(Start(remoteBegin), es)
    ensures EndOnce(s.LifeNow()) && Sound(s.LedgerNow())
    ensures Add32(s.remoteIncomingWindow, s.nextOutgoingId) == LatestGrant(remoteBegin.incomingWindow, es)
    ensures Edges(Start(remoteBegin), es, remoteBegin.incomingWindow, edges) ==>
              s.remoteIncomingWindow == LastEdge(remoteBegin.incomingWindow, edges) - Transfers(s.sent)
    ensures AllHonest(Start(remoteBegin), es) && !s.closeInProgress && !s.exited ==>
              Room(s.State(), Add32(remoteBegin.nextOutgoingId, DEFAULT_WINDOW)) > DEFAULT_WINDOW / 2
  {
    hide Run, ValidRun, EndOnce, Sound, LatestGrant, Add32, Edges, AllHonest, Room;
    s := new SessionState(remoteBegin);
    StartHolds(remoteBegin);
    EveryRun(remoteBegin, es, edges);
    s.Drive(es);
  }
}
