/** What the session passes to its links, what it puts on the wire, and what makes it close. */
module SessionFrames {
  import opened Words
  import opened Values
  import opened Frames
  import opened Session
  import opened SessionRuns
  import opened Settlement
  import Delivery

  // ---- flows sent --------------------------------------------------------------------

  /** The session's part of a flow: what it expects next and allows, what it sends next and has room for. */
  predicate StatesSession(f: Flow, w: Windows) {
    && f.nextIncomingId == Some(w.nextIncomingId) && f.incomingWindow == w.incoming
    && f.nextOutgoingId == w.nextOutgoingId && f.outgoingWindow == w.outgoing
  }

  /** The link's part. */
  predicate SameLink(f: Flow, g: Flow) {
    && f.handle == g.handle && f.deliveryCount == g.deliveryCount && f.linkCredit == g.linkCredit
    && f.available == g.available && f.drain == g.drain && f.echo == g.echo && f.properties == g.properties
  }

  predicate NoLink(f: Flow) {
    && f.handle == None && f.deliveryCount == None && f.linkCredit == None && f.available == None
    && !f.drain && !f.echo && f.properties == Null
  }

  /** One more frame is written, a flow that satisfies p. */
  predicate SendsFlow(before: Life, after: Life, p: Flow -> bool) {
    && |after.sent| == |before.sent| + 1 && after == before.(sent := after.sent) && before.sent <= after.sent
    && after.sent[|before.sent|].SentFlow? && p(after.sent[|before.sent|].flow)
  }

  /** A link's flow goes out with the session's counters filled in and its own part as it was. */
  lemma {:induction false} LinkFlowStamped(st: Mux, f: Flow)
    ensures var r := Step(st, TxFlow(f));
            && SendsFlow(st.life, r.life, (g: Flow) => StatesSession(g, st.windows) && SameLink(g, f))
            && r == st.(life := r.life)
  {
  }

  /** Frames of the links that need nothing filled in go out as they are. */
  lemma {:induction false} OtherFrames(st: Mux)
    ensures Step(st, TxOther) == st.(life := Send(st.life, SentOther))
    ensures Send(st.life, SentOther).sent == st.life.sent + [SentOther]
  {
  }

  // ---- flows received ----------------------------------------------------------------

  /**
   A flow received: the counters are taken over, a flow for a link is passed to that link and to no
   other, one for the session is answered if it asks, and one that cannot be placed closes the session.
   */
  lemma {:induction false} FlowHandled(st: Mux, f: Flow)
    requires Enabled(st, RxFlow(f))
    ensures var r := Step(st, RxFlow(f));
            && r.tables == st.tables && r.ledger == st.ledger
            && (if f.nextIncomingId.None? then
                  r.windows == st.windows && r.forwarded == st.forwarded && Closes(st.life, r.life, NoNextIncomingId)
                else
                  && r.windows.nextIncomingId == f.nextOutgoingId && r.windows.remoteOutgoing == f.outgoingWindow
                  && r.windows.nextOutgoingId == st.windows.nextOutgoingId && r.windows.needFlowCount == st.windows.needFlowCount
                  && match f.handle
                     case Some(h) =>
                       if h in st.tables.links
                       then r.life == st.life && r.forwarded == st.forwarded + [Forward(st.tables.links[h], RxFlow(f))]
                       else r.forwarded == st.forwarded && Closes(st.life, r.life, UnknownFlow)
                     case None =>
                       && r.forwarded == st.forwarded
                       && if f.echo && !st.life.closing
                          then SendsFlow(st.life, r.life, (g: Flow) => StatesSession(g, r.windows) && NoLink(g))
                          else r.life == st.life)
  {
  }

  /** The session closes with the error: one End that says so, unless it is closing already. */
  predicate Closes(before: Life, after: Life, fault: Fault) {
    if before.closing then after == before
    else after.closing && after.doneErr == Some(LocalFault(fault)) && after.sent == before.sent + [SentEnd(Some(fault))]
  }

  // ---- transfers received ------------------------------------------------------------

  /**
   A transfer received: counted, passed to the link of its handle, remembered if the link will have to
   be told of its settlement, and answered with a flow when half the window is used.
   */
  lemma {:induction false} TransferHandled(st: Mux, t: Transfer, second: bool)
    requires Enabled(st, RxTransfer(t, second))
    ensures var r := Step(st, RxTransfer(t, second));
            var used := Add32(st.windows.needFlowCount, 1);
            && r.ledger == st.ledger && r.windows.nextIncomingId == Add32(st.windows.nextIncomingId, 1)
            && r.windows.remoteOutgoing == (if st.windows.remoteOutgoing > 0 then st.windows.remoteOutgoing - 1 else 0)
            && (if t.handle !in st.tables.links then
                  && r.forwarded == st.forwarded && r.tables == st.tables && Closes(st.life, r.life, UnknownTransfer)
                else
                  && r.forwarded == st.forwarded + [Forward(st.tables.links[t.handle], RxTransfer(t, second))]
                  && r.tables.links == st.tables.links && r.tables.inputHandles == st.tables.inputHandles
                  && r.tables.localHandles == st.tables.localHandles
                  && r.tables.remoteHandles == (if second && !t.settled && t.deliveryId.Some?
                                                then st.tables.remoteHandles[t.deliveryId.value := t.handle]
                                                else st.tables.remoteHandles)
                  && if used >= st.windows.incoming / 2 && !st.life.closing
                     then r.windows.needFlowCount == 0
                          && SendsFlow(st.life, r.life, (g: Flow) => StatesSession(g, r.windows) && NoLink(g))
                     else r.windows.needFlowCount == used && r.life == st.life)
  {
    hide Add32;
  }

  // ---- attach and detach -------------------------------------------------------------

  /** An attach binds the link to the handle and is passed to it; one that fits no link closes the session. */
  lemma {:induction false} AttachHandled(st: Mux, h: uint32, link: Option<Link>)
    ensures var r := Step(st, RxAttach(h, link));
            if link.None? then
              r.tables == st.tables && r.forwarded == st.forwarded && Closes(st.life, r.life, MismatchedAttach)
            else
              && r.life == st.life && r.forwarded == st.forwarded + [Forward(link.value, RxAttach(h, link))]
              && h in r.tables.links && r.tables.links[h] == link.value
              && forall g | g != h :: (g in r.tables.links <==> g in st.tables.links)
                                      && (g in st.tables.links ==> r.tables.links[g] == st.tables.links[g])
  {
  }

  /** A detach is passed to its link, which then has no handle; one for no link closes the session. */
  lemma {:induction false} DetachHandled(st: Mux, h: uint32)
    requires OneHandle(st.tables)
    ensures var r := Step(st, RxDetach(h));
            if h !in st.tables.links then
              r.tables == st.tables && r.forwarded == st.forwarded && Closes(st.life, r.life, UnknownDetach)
            else
              && r.life == st.life && r.forwarded == st.forwarded + [Forward(st.tables.links[h], RxDetach(h))]
              && r.tables.links == st.tables.links - {h} && st.tables.links[h].outputHandle !in r.tables.outputIds
  {
    DetachTables(st, h);
  }

  // ---- dispositions for receivers ----------------------------------------------------

  /** The session knows which link a delivery received is for. */
  predicate Remembers(st: Mux, id: uint32, h: uint32, l: Link) {
    && id in st.tables.remoteHandles && st.tables.remoteHandles[id] == h
    && h in st.tables.links && st.tables.links[h] == l
  }

  /** The event is about the delivery received or about the handle of its link. */
  predicate Concerns(e: Event, id: uint32, h: uint32) {
    match e
    case RxDisposition(d) => !d.role && d.first <= id <= Upto(d)
    case RxTransfer(t, _) => t.deliveryId == Some(id)
    case RxAttach(g, _) => g == h
    case RxDetach(g) => g == h
    case _ => false
  }

  lemma {:induction false} RemembersStep(st: Mux, e: Event, id: uint32, h: uint32, l: Link)
    requires Sound(st.ledger) && Enabled(st, e) && OneHandle(st.tables) && AttachesOnce(st.tables, e)
    requires Remembers(st, id, h, l) && !Concerns(e, id, h)
    ensures Remembers(Step(st, e), id, h, l) && OneHandle(Step(st, e).tables)
  {
    hide Step, OneHandle, Enabled, Sound, AttachesOnce;
    RouteStep(st, e, h);
    RemoteKept(st, e, id, h);
  }

  lemma {:induction false} RemoteKept(st: Mux, e: Event, id: uint32, h: uint32)
    requires Sound(st.ledger) && Enabled(st, e) && id in st.tables.remoteHandles && !Concerns(e, id, h)
    ensures id in Step(st, e).tables.remoteHandles && Step(st, e).tables.remoteHandles[id] == st.tables.remoteHandles[id]
  {
    if e.RxDisposition? {
      hide Step, Sound, ClosedExactly, ToldExactly, CloseWithError;
      DispositionCompletes(st, e.disposition);
    } else {
      hide SettleFrom, CloseWithError, EndNow, EndReceived, Send, Stamped, ConfirmFrom, AwaitCompletion, FlowReceived,
        TransferReceived, TransferWritten;
    }
  }

  lemma {:induction false} RemembersRun(st: Mux, es: seq<Event>, id: uint32, h: uint32, l: Link)
    requires Sound(st.ledger) && ValidRun(st, es) && OneHandle(st.tables) && AllAttachOnce(st, es) && Remembers(st, id, h, l)
    requires forall k | 0 <= k < |es| :: !Concerns(es[k], id, h)
    ensures var r := Run(st, es); Remembers(r, id, h, l) && Sound(r.ledger)
    decreases |es|
  {
    hide Step, OneHandle, Enabled, Sound, AttachesOnce, Remembers, Concerns;
    if es != [] {
      RemembersStep(st, es[0], id, h, l);
      SoundStep(st, es[0]);
      RemembersRun(Step(st, es[0]), es[1..], id, h, l);
    }
  }

  /**
   Settlement of a delivery received, in mode second: from its first transfer on, whatever happens in
   between, the peer's disposition that names it reaches the link it came in on.
   */
  lemma {:induction false} SettlementReachesReceiver(st: Mux, t: Transfer, es: seq<Event>, d: Disposition)
    requires Sound(st.ledger) && OneHandle(st.tables) && Enabled(st, RxTransfer(t, true))
    requires t.handle in st.tables.links && !t.settled && t.deliveryId.Some?
    requires var s := Step(st, RxTransfer(t, true));
             ValidRun(s, es) && AllAttachOnce(s, es) && Enabled(Run(s, es), RxDisposition(d))
    requires forall k | 0 <= k < |es| :: !Concerns(es[k], t.deliveryId.value, t.handle)
    requires !d.role && d.first <= t.deliveryId.value <= Upto(d)
    ensures var r := Run(Step(st, RxTransfer(t, true)), es);
            var q := Step(r, RxDisposition(d));
            exists k :: |r.forwarded| <= k < |q.forwarded|
                        && q.forwarded[k] == Forward(st.tables.links[t.handle], RxDisposition(d))
  {
    hide Step, Sound, Run, ValidRun, AllAttachOnce, ClosedExactly, CloseWithError, Concerns;
    var s, id := Step(st, RxTransfer(t, true)), t.deliveryId.value;
    TransferHandled(st, t, true);
    SoundStep(st, RxTransfer(t, true));
    RemembersRun(s, es, id, t.handle, st.tables.links[t.handle]);
    var r := Run(s, es);
    DispositionCompletes(r, d);
    assert id in Reachable(r.tables, d, d.first);
    var q := Step(r, RxDisposition(d));
    var k :| |r.forwarded| <= k < |q.forwarded| && IsFor(r.tables, d, id, q.forwarded[k]);
  }

  // ---- what closes a session ---------------------------------------------------------

  /** Frames the session cannot place. */
  predicate Misplaced(st: Mux, e: Event) {
    match e
    case RxDisposition(d) => Named(HandlesFor(st.tables, d), d.first, Upto(d)) != Reachable(st.tables, d, d.first)
    case RxFlow(f) => f.nextIncomingId.None? || (f.handle.Some? && f.handle.value !in st.tables.links)
    case RxAttach(_, link) => link.None?
    case RxTransfer(t, _) => t.handle !in st.tables.links
    case RxDetach(h) => h !in st.tables.links
    case RxOther => true
    case _ => false
  }

  /** A session begins to close exactly when it is told to or gets a frame it cannot place. */
  lemma {:induction false} ClosesExactly(st: Mux, e: Event)
    requires Sound(st.ledger) && Enabled(st, e) && !st.life.closing
    ensures Step(st, e).life.closing <==> e.CloseCall? || Misplaced(st, e)
  {
    if e.RxDisposition? {
      hide Step, Sound, ClosedExactly, ToldExactly;
      DispositionCompletes(st, e.disposition);
    } else {
      hide SettleFrom, Stamped, ConfirmFrom, AwaitCompletion, FlowReceived, TransferReceived, TransferWritten, Number, Sound;
    }
  }

  /** What a second End, or a second completion, would do: each closes a channel that is closed already. */
  lemma {:induction false} SecondClosePanics(l: Life, fault: Option<Fault>, g: Ledger, state: Option<Value>, done: Completion)
    ensures EndNow(l, fault).panicked <==> l.panicked || l.endSent
    ensures CloseChannel(g, state, done).panicked <==>
              g.panicked || done.channel !in g.channels || g.channels[done.channel].closed
    ensures !EndNow(l, fault).panicked ==> EndNow(EndNow(l, fault), None).panicked
    ensures !CloseChannel(g, state, done).panicked ==> CloseChannel(CloseChannel(g, state, done), state, done).panicked
  {
  }

  /** The mux ends exactly with the peer's End or the connection. */
  lemma {:induction false} EndsExactly(st: Mux, e: Event)
    requires Sound(st.ledger) && Enabled(st, e)
    ensures Step(st, e).life.exited <==> e.RxEnd? || e.ConnDone?
    ensures e.ConnDone? ==> Step(st, e).life == st.life.(doneErr := Some(ConnectionError), exited := true)
  {
    if e.RxDisposition? {
      hide Step, Sound, ClosedExactly, ToldExactly;
      DispositionCompletes(st, e.disposition);
    } else {
      hide SettleFrom, Stamped, ConfirmFrom, AwaitCompletion, FlowReceived, TransferReceived, TransferWritten, Number, Sound;
    }
  }

  /** A transfer that is not written leaves no trace but its number. */
  lemma {:induction false} UnwrittenTransfer(st: Mux, env: Delivery.Envelope, inputHandle: uint32, done: nat, outcome: Outcome)
    requires outcome != Written
    ensures var r := Step(st, TxTransfer(env, inputHandle, done, outcome));
            && r.ledger == st.ledger && r.windows == st.windows && r.life == st.life && r.forwarded == st.forwarded
            && r.tables.nextDeliveryId == Add32(st.tables.nextDeliveryId, if env.needsId then 1 else 0)
  {
    NoWrap(st.tables.nextDeliveryId, 0);
  }
}
