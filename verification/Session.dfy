/**
 The session mux: five maps, the window counters, and the End handshake, one step per case of
 its select. Writes to the connection and frames passed to links are kept as logs.
 */
module Session {
  import opened Words
  import opened Values
  import opened Frames
  import Delivery

  /** A link as the session sees it: its identity and its output handle. */
  datatype Link = Link(name: nat, outputHandle: uint32)

  datatype Fault =
    | UnknownDisposition | NoNextIncomingId | UnknownFlow | MismatchedAttach | UnknownTransfer | UnknownDetach
    | UnexpectedFrame

  datatype Reason = LocalFault(fault: Fault) | RemoteError(error: Value) | ConnectionError

  datatype Sent =
    | SentTransfer(transfer: Transfer)
    | SentFlow(flow: Flow)
    | SentDisposition(disposition: Disposition)
    | SentEnd(fault: Option<Fault>)
    | SentOther

  /** A completion channel: room for one state, closed once. */
  datatype Channel = Channel(buffer: Option<Value>, closed: bool)

  datatype Cause = BySender | ByReceiver(disposition: Disposition) | ByConfirmation(disposition: Disposition)

  datatype Completion = Completion(channel: nat, id: uint32, cause: Cause)

  datatype Outcome = Written | Cancelled | ConnectionDown

  /** One pass through the select. */
  datatype Event =
    | ConnDone
    | CloseCall
    | RxDisposition(disposition: Disposition)
    | RxFlow(flow: Flow)
    | RxAttach(handle: uint32, link: Option<Link>)
    | RxTransfer(transfer: Transfer, second: bool)
    | RxDetach(handle: uint32)
    | RxEnd(error: Value)
    | RxOther
    | TxTransfer(env: Delivery.Envelope, inputHandle: uint32, done: nat, outcome: Outcome)
    | TxDisposition(disposition: Disposition)
    | TxFlow(flow: Flow)
    | TxOther

  datatype Forward = Forward(link: Link, event: Event)

  /** The maps of handles and numbers. */
  datatype Tables = Tables(links: map<uint32, Link>, inputHandles: map<Link, uint32>,
                           localHandles: map<uint32, uint32>, remoteHandles: map<uint32, uint32>,
                           outputIds: map<uint32, uint32>, nextDeliveryId: uint32)

  /** Deliveries awaiting confirmation, the completion channels, and the channels closed so far. */
  datatype Ledger = Ledger(settlements: map<uint32, nat>, channels: map<nat, Channel>,
                           completions: seq<Completion>, panicked: bool)

  datatype Windows = Windows(nextOutgoingId: uint32, nextIncomingId: uint32,
                             remoteIncoming: uint32, remoteOutgoing: uint32,
                             needFlowCount: uint32, incoming: uint32, outgoing: uint32)

  /** The End handshake, and every frame written. */
  datatype Life = Life(closing: bool, endSent: bool, doneErr: Option<Reason>, exited: bool, panicked: bool,
                       sent: seq<Sent>)

  datatype Mux = Mux(tables: Tables, ledger: Ledger, windows: Windows, life: Life, forwarded: seq<Forward>)

  const DEFAULT_WINDOW: uint32 := 5000

  function Start(begin: Begin): (st: Mux) {
    Mux(Tables(map[], map[], map[], map[], map[], 0), Ledger(map[], map[], [], false),
        Windows(0, begin.nextOutgoingId, begin.incomingWindow, begin.outgoingWindow, 0, DEFAULT_WINDOW, DEFAULT_WINDOW),
        Life(false, false, None, false, false, []), [])
  }

  // ---- the End handshake -------------------------------------------------------------

  function Send(l: Life, f: Sent): (r: Life) {
    l.(sent := l.sent + [f])
  }

  /** Closing a closed channel panics. */
  function EndNow(l: Life, fault: Option<Fault>): (r: Life) {
    var s := Send(l.(closing := true), SentEnd(fault));
    if l.endSent then s.(panicked := true) else s.(endSent := true)
  }

  function CloseWithError(l: Life, fault: Fault): (r: Life) {
    if l.closing then l else EndNow(l.(doneErr := Some(LocalFault(fault))), Some(fault))
  }

  function EndReceived(l: Life, error: Value): (r: Life) {
    if l.closing then l.(exited := true)
    else Send(l.(exited := true, doneErr := if error != Null then Some(RemoteError(error)) else l.doneErr),
              SentEnd(None))
  }

  // ---- completion channels -----------------------------------------------------------

  /** A send that does not block, then a close; either panics on a closed channel. */
  function CloseChannel(g: Ledger, state: Option<Value>, done: Completion): (r: Ledger) {
    var c := done.channel;
    if c in g.channels && !g.channels[c].closed then
      var b := g.channels[c].buffer;
      g.(channels := g.channels[c := Channel(if b.None? then state else b, true)],
         completions := g.completions + [done])
    else g.(panicked := true)
  }

  /** The delivery id completes, if its confirmation is awaited. */
  function Complete(g: Ledger, id: uint32, cause: Cause): (r: Ledger)
    requires !cause.BySender?
  {
    if id !in g.settlements then g
    else CloseChannel(g.(settlements := g.settlements - {id}), Some(cause.disposition.state),
                      Completion(g.settlements[id], id, cause))
  }

  /** The transfer with a new completion channel has been written. */
  function AwaitCompletion(g: Ledger, id: uint32, done: nat, settled: bool): (r: Ledger) {
    var g := g.(channels := g.channels[done := Channel(None, false)]);
    if settled then CloseChannel(g, None, Completion(done, id, BySender))
    else g.(settlements := g.settlements[id := done])
  }

  // ---- ranges ------------------------------------------------------------------------

  function Last(d: Disposition): (n: uint32) {
    if d.last.Some? then d.last.value else d.first
  }

  /** The loops over a range compare with <= on uint32; see RangeLoopEnds. */
  predicate Finite(d: Disposition) {
    Last(d) < MOD32 - 1
  }

  function HandleOf(t: Tables, d: Disposition, id: uint32): (h: Option<uint32>) {
    var handles := if d.role then t.localHandles else t.remoteHandles;
    if id in handles then Some(handles[id]) else None
  }

  function DropHandle(t: Tables, d: Disposition, id: uint32): (r: Tables) {
    if d.role then t.(localHandles := t.localHandles - {id}) else t.(remoteHandles := t.remoteHandles - {id})
  }

  function SettleAt(st: Mux, d: Disposition, id: uint32): (r: Mux) {
    var h := HandleOf(st.tables, d, id);
    if h.None? then st
    else
      var s := st.(tables := DropHandle(st.tables, d, id),
                   ledger := if d.settled && d.role then Complete(st.ledger, id, ByReceiver(d)) else st.ledger);
      if h.value !in st.tables.links then s.(life := CloseWithError(st.life, UnknownDisposition))
      else s.(forwarded := st.forwarded + [Forward(st.tables.links[h.value], RxDisposition(d))])
  }

  function SettleFrom(st: Mux, d: Disposition, id: int): (r: Mux)
    requires 0 <= id <= MOD32
    decreases MOD32 - id
  {
    if id > Last(d) then st else SettleFrom(SettleAt(st, d, id), d, id + 1)
  }

  function ConfirmFrom(g: Ledger, d: Disposition, id: int): (r: Ledger)
    requires 0 <= id <= MOD32
    decreases MOD32 - id
  {
    if id > Last(d) then g else ConfirmFrom(Complete(g, id, ByConfirmation(d)), d, id + 1)
  }

  // ---- windows -----------------------------------------------------------------------

  /** The session fields of an outgoing flow. */
  function Stamped(w: Windows, f: Flow): (r: Flow) {
    f.(nextIncomingId := Some(w.nextIncomingId), incomingWindow := w.incoming,
       nextOutgoingId := w.nextOutgoingId, outgoingWindow := w.outgoing)
  }

  const PLAIN_FLOW: Flow := Flow(None, 0, 0, 0, None, None, None, None, false, false, Null)

  function FlowReceived(w: Windows, f: Flow): (r: Windows)
    requires f.nextIncomingId.Some?
  {
    w.(nextIncomingId := f.nextOutgoingId, remoteOutgoing := f.outgoingWindow,
       remoteIncoming := Add32(Sub32(f.incomingWindow, w.nextOutgoingId), f.nextIncomingId.value))
  }

  function TransferReceived(w: Windows): (r: Windows) {
    w.(needFlowCount := Add32(w.needFlowCount, 1), nextIncomingId := Add32(w.nextIncomingId, 1),
       remoteOutgoing := if w.remoteOutgoing > 0 then w.remoteOutgoing - 1 else 0)
  }

  function TransferWritten(w: Windows): (r: Windows) {
    w.(nextOutgoingId := Add32(w.nextOutgoingId, 1),
       remoteIncoming := if w.remoteIncoming != 0 then w.remoteIncoming - 1 else 0)
  }

  // ---- the cases ---------------------------------------------------------------------

  function OnFlow(st: Mux, f: Flow): (r: Mux) {
    if f.nextIncomingId.None? then st.(life := CloseWithError(st.life, NoNextIncomingId))
    else
      var s := st.(windows := FlowReceived(st.windows, f));
      if f.handle.Some? then
        if f.handle.value !in st.tables.links then s.(life := CloseWithError(st.life, UnknownFlow))
        else s.(forwarded := st.forwarded + [Forward(st.tables.links[f.handle.value], RxFlow(f))])
      else if f.echo && !st.life.closing then
        s.(life := Send(st.life, SentFlow(Stamped(s.windows, PLAIN_FLOW))))
      else s
  }

  function OnAttach(st: Mux, handle: uint32, link: Option<Link>): (r: Mux) {
    if link.None? then st.(life := CloseWithError(st.life, MismatchedAttach))
    else
      st.(tables := st.tables.(inputHandles := st.tables.inputHandles[link.value := handle],
                               links := st.tables.links[handle := link.value]),
          forwarded := st.forwarded + [Forward(link.value, RxAttach(handle, link))])
  }

  /** The flow that widens the peer's window again once half of it is used. */
  function Regrant(st: Mux): (r: Mux) {
    if st.windows.needFlowCount >= st.windows.incoming / 2 && !st.life.closing then
      st.(windows := st.windows.(needFlowCount := 0),
          life := Send(st.life, SentFlow(Stamped(st.windows, PLAIN_FLOW))))
    else st
  }

  function OnTransfer(st: Mux, t: Transfer, second: bool): (r: Mux) {
    var s := st.(windows := TransferReceived(st.windows));
    if t.handle !in st.tables.links then s.(life := CloseWithError(st.life, UnknownTransfer))
    else
      var remember := !t.settled && t.deliveryId.Some? && second;
      Regrant(s.(forwarded := st.forwarded + [Forward(st.tables.links[t.handle], RxTransfer(t, second))],
                 tables := if remember
                           then st.tables.(remoteHandles := st.tables.remoteHandles[t.deliveryId.value := t.handle])
                           else st.tables))
  }

  function OnDetach(st: Mux, handle: uint32): (r: Mux) {
    var t := st.tables;
    if handle !in t.links then st.(life := CloseWithError(st.life, UnknownDetach))
    else
      var l := t.links[handle];
      st.(forwarded := st.forwarded + [Forward(l, RxDetach(handle))],
          tables := t.(links := if l in t.inputHandles then t.links - {t.inputHandles[l]} else t.links,
                       outputIds := t.outputIds - {l.outputHandle}))
  }

  /** The delivery id a transfer is sent under. */
  function IdFor(t: Tables, env: Delivery.Envelope): (id: uint32) {
    if env.needsId then t.nextDeliveryId
    else if env.frame.handle in t.outputIds then t.outputIds[env.frame.handle]
    else 0
  }

  /** Numbering a transfer, before it is written. */
  function Number(t: Tables, env: Delivery.Envelope, inputHandle: uint32): (r: Tables) {
    var id := IdFor(t, env);
    var t := if env.needsId
             then t.(nextDeliveryId := Add32(id, 1), outputIds := t.outputIds[env.frame.handle := id]) else t;
    if env.frame.settled then t.(localHandles := t.localHandles - {id})
    else if env.needsId then t.(localHandles := t.localHandles[id := inputHandle])
    else t
  }

  function Numbered(env: Delivery.Envelope, id: uint32): (t: Transfer) {
    if env.needsId then env.frame.(deliveryId := Some(id)) else env.frame
  }

  /** A transfer that is not written changes only the numbering. */
  function OnSend(st: Mux, env: Delivery.Envelope, inputHandle: uint32, done: nat, outcome: Outcome): (r: Mux) {
    var id := IdFor(st.tables, env);
    var s := st.(tables := Number(st.tables, env, inputHandle));
    if !outcome.Written? then s
    else
      s.(life := Send(st.life, SentTransfer(Numbered(env, id))),
         ledger := if env.completes then AwaitCompletion(st.ledger, id, done, env.frame.settled) else st.ledger,
         windows := TransferWritten(st.windows))
  }

  function OnSendDisposition(st: Mux, d: Disposition): (r: Mux) {
    st.(ledger := if d.settled && !d.role then ConfirmFrom(st.ledger, d, d.first) else st.ledger,
        life := Send(st.life, SentDisposition(d)))
  }

  function Step(st: Mux, e: Event): (r: Mux) {
    match e
    case ConnDone => st.(life := st.life.(doneErr := Some(ConnectionError), exited := true))
    case CloseCall => st.(life := EndNow(st.life, None))
    case RxDisposition(d) => SettleFrom(st, d, d.first)
    case RxFlow(f) => OnFlow(st, f)
    case RxAttach(handle, link) => OnAttach(st, handle, link)
    case RxTransfer(t, second) => OnTransfer(st, t, second)
    case RxDetach(handle) => OnDetach(st, handle)
    case RxEnd(error) => st.(life := EndReceived(st.life, error))
    case RxOther => st.(life := CloseWithError(st.life, UnexpectedFrame))
    case TxTransfer(env, inputHandle, done, outcome) => OnSend(st, env, inputHandle, done, outcome)
    case TxDisposition(d) => OnSendDisposition(st, d)
    case TxFlow(f) => st.(life := Send(st.life, SentFlow(Stamped(st.windows, f))))
    case TxOther => st.(life := Send(st.life, SentOther))
  }

  /**
   Which cases the select offers. Sending is off while closing, transfers also while a window is
   used up; send makes a new completion channel for each last frame.
   */
  predicate Enabled(st: Mux, e: Event) {
    && !st.life.exited && !st.life.panicked && !st.ledger.panicked
    && match e
       case CloseCall => !st.life.closing
       case RxDisposition(d) => Finite(d)
       case TxTransfer(env, _, done, _) =>
         && !st.life.closing && st.windows.remoteIncoming != 0 && st.windows.outgoing != 0
         && (env.completes ==> done !in st.ledger.channels)
       case TxDisposition(d) => !st.life.closing && Finite(d)
       case TxFlow(_) => !st.life.closing
       case TxOther => !st.life.closing
       case _ => true
  }

  function Run(st: Mux, es: seq<Event>): (r: Mux)
    decreases |es|
  {
    if es == [] then st else Run(Step(st, es[0]), es[1..])
  }

  predicate ValidRun(st: Mux, es: seq<Event>)
    decreases |es|
  {
    es == [] || (Enabled(st, es[0]) && ValidRun(Step(st, es[0]), es[1..]))
  }
}
