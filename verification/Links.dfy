/**
 The two link muxes' common part, the Detach handshake, and the sender's mux with the credit it
 keeps.
 */
module Links {
  import opened Words
  import opened Values
  import opened Frames
  import Delivery

  /** delivery-count and link-credit of one end of a link. */
  datatype Counters = Counters(count: uint32, credit: uint32)

  datatype LinkReason = LocalError | CleanClose | RemoteDetach(error: Value) | SessionEnded

  /** closeInProgress, doneErr, and whether the mux has returned. */
  datatype LinkLife = LinkLife(closing: bool, doneErr: Option<LinkReason>, exited: bool)

  datatype LinkOut =
    | OutTransfer(env: Delivery.Envelope)
    | OutFlow(flow: Flow)
    | OutDisposition(disposition: Disposition)
    | OutDetach(detach: Body)

  /** How a select with a send to the session came out. */
  datatype Path = Passed | LinkClosed | SessionGone

  const OPEN_LINK: LinkLife := LinkLife(false, None, false)

  /** The frame log after txFrame: dropped once the session has ended or sent its End. */
  function Tx(out: seq<LinkOut>, f: LinkOut, passed: bool): (r: seq<LinkOut>) {
    if passed then out + [f] else out
  }

  function DetachOf(handle: uint32, failed: bool): (f: LinkOut) {
    OutDetach(DetachBody(handle, true, if failed then Composite(ERROR, []) else Null))
  }

  /** A link's handshake and the frames it has handed to the session. */
  datatype LinkEnd = LinkEnd(handle: uint32, life: LinkLife, out: seq<LinkOut>)

  function Emit(l: LinkEnd, f: LinkOut, passed: bool): (r: LinkEnd) {
    l.(out := Tx(l.out, f, passed))
  }

  function CloseWithError(l: LinkEnd, passed: bool): (r: LinkEnd) {
    if l.life.closing then l
    else Emit(l.(life := l.life.(closing := true, doneErr := Some(LocalError))), DetachOf(l.handle, true), passed)
  }

  /** The close requested by the client. */
  function CloseByClient(l: LinkEnd, passed: bool): (r: LinkEnd) {
    if l.life.closing then l
    else Emit(l.(life := l.life.(closing := true)), DetachOf(l.handle, false), passed)
  }

  function Exit(l: LinkEnd, reason: LinkReason): (r: LinkEnd) {
    l.(life := l.life.(doneErr := Some(reason), exited := true))
  }

  /** link.muxHandleFrame on a detach. */
  function DetachReceived(l: LinkEnd, closed: bool, error: Value, passed: bool): (r: LinkEnd) {
    if !closed then CloseWithError(l, passed)
    else if l.life.closing then Exit(l, if l.life.doneErr.Some? then l.life.doneErr.value else CleanClose)
    else Exit(Emit(l, DetachOf(l.handle, false), passed), RemoteDetach(error))
  }

  // ---- the sender --------------------------------------------------------------------

  /** link-credit(snd) := delivery-count(rcv) + link-credit(rcv) - delivery-count(snd) */
  function FlowFormula(c: Counters, credit: uint32, count: Option<uint32>): (r: Counters) {
    var k := Sub32(credit, c.count);
    c.(credit := if count.Some? then Add32(k, count.value) else k)
  }

  /** Credit is used by whole messages. */
  function AfterTransfer(c: Counters, more: bool): (r: Counters) {
    if more then c else Counters(Add32(c.count, 1), Sub32(c.credit, 1))
  }

  function RolledBack(c: Counters): (r: Counters) {
    Counters(Sub32(c.count, 1), Add32(c.credit, 1))
  }

  datatype SenderState = SenderState(counters: Counters, end: LinkEnd, panicked: bool)

  datatype SenderEvent =
    | FlowIn(flow: Flow, path: Path)
    | DispositionIn(disposition: Disposition, path: Path)
    | DetachIn(closed: bool, error: Value, passed: bool)
    | OtherIn(passed: bool)
    | TransferOut(env: Delivery.Envelope, path: Path)
    | ClientClose(passed: bool)
    | SessionDone
    | Rollback

  function CreditFlow(handle: uint32, c: Counters): (f: Flow) {
    Flow(None, 0, 0, 0, Some(handle), Some(c.count), Some(c.credit), None, false, false, Null)
  }

  /** A reply through session.tx, or what ends the wait for it. */
  function Reply(l: LinkEnd, f: LinkOut, path: Path): (r: LinkEnd) {
    match path
    case Passed => Emit(l, f, true)
    case LinkClosed => l
    case SessionGone => Exit(l, SessionEnded)
  }

  function Confirmation(d: Disposition): (r: Disposition) {
    Disposition(false, d.first, d.last, true, d.state, false)
  }

  /** A flow must carry the link's credit: without it the mux dereferences nil. */
  function SenderStep(s: SenderState, e: SenderEvent): (r: SenderState) {
    match e
    case FlowIn(f, path) =>
      if f.linkCredit.None? then s.(panicked := true)
      else
        var s := s.(counters := FlowFormula(s.counters, f.linkCredit.value, f.deliveryCount));
        if !f.echo then s else s.(end := Reply(s.end, OutFlow(CreditFlow(s.end.handle, s.counters)), path))
    case DispositionIn(d, path) =>
      if d.settled then s else s.(end := Reply(s.end, OutDisposition(Confirmation(d)), path))
    case DetachIn(closed, error, passed) => s.(end := DetachReceived(s.end, closed, error, passed))
    case OtherIn(passed) => s.(end := CloseWithError(s.end, passed))
    case TransferOut(env, path) =>
      if path.Passed?
      then s.(counters := AfterTransfer(s.counters, env.frame.more), end := Emit(s.end, OutTransfer(env), true)) else s
    case ClientClose(passed) => s.(end := CloseByClient(s.end, passed))
    case SessionDone => s.(end := Exit(s.end, SessionEnded))
    case Rollback => s.(counters := RolledBack(s.counters))
  }

  /** Transfers wait for credit and stop with closing. */
  predicate SenderEnabled(s: SenderState, e: SenderEvent) {
    && !s.end.life.exited && !s.panicked
    && match e
       case TransferOut(_, _) => s.counters.credit > 0 && !s.end.life.closing
       case ClientClose(_) => !s.end.life.closing
       case _ => true
  }

  function SenderRun(s: SenderState, es: seq<SenderEvent>): (r: SenderState)
    decreases |es|
  {
    if es == [] then s else SenderRun(SenderStep(s, es[0]), es[1..])
  }

  predicate SenderValid(s: SenderState, es: seq<SenderEvent>)
    decreases |es|
  {
    es == [] || (SenderEnabled(s, es[0]) && SenderValid(SenderStep(s, es[0]), es[1..]))
  }

  lemma {:induction false} SenderRunOnce(s: SenderState, es: seq<SenderEvent>, k: nat)
    requires k < |es| && SenderValid(s, es[k..])
    ensures SenderEnabled(s, es[k]) && SenderValid(SenderStep(s, es[k]), es[k + 1..])
    ensures SenderRun(s, es[k..]) == SenderRun(SenderStep(s, es[k]), es[k + 1..])
  {
    hide SenderStep, SenderEnabled;
    assert es[k..][1..] == es[k + 1..];
  }

  lemma {:induction false} SenderRunEnds(s: SenderState, es: seq<SenderEvent>)
    ensures es == [] ==> SenderRun(s, es) == s
    ensures es[0..] == es && es[|es|..] == []
  {
  }

  class SenderMux {
    const handle: uint32
    var deliveryCount: uint32
    var linkCredit: uint32
    var closeInProgress: bool
    var doneErr: Option<LinkReason>
    var exited: bool
    var out: seq<LinkOut>
    var panicked: bool

    constructor (handle: uint32)
      ensures State() == SenderState(Counters(0, 0), LinkEnd(handle, OPEN_LINK, []), false)
    {
      this.handle := handle;
      deliveryCount, linkCredit, closeInProgress, doneErr, exited, out := 0, 0, false, None, false, [];
      panicked := false;
    }

    ghost function End(): (l: LinkEnd)
      reads this
    {
      LinkEnd(handle, LinkLife(closeInProgress, doneErr, exited), out)
    }

    ghost function State(): (s: SenderState)
      reads this
    {
      SenderState(Counters(deliveryCount, linkCredit), End(), panicked)
    }

    method TxFrame(f: LinkOut, passed: bool)
      modifies this`out
      ensures End() == Emit(old(End()), f, passed)
    {
      if passed { out := out + [f]; }
    }

    method FailLink(passed: bool)
      modifies this`closeInProgress, this`doneErr, this`out
      ensures End() == CloseWithError(old(End()), passed)
    {
      if closeInProgress { return; }
      closeInProgress := true;
      doneErr := Some(LocalError);
      TxFrame(DetachOf(handle, true), passed);
    }

    method ReplyWith(f: LinkOut, path: Path)
      modifies this`out, this`doneErr, this`exited
      ensures End() == Reply(old(End()), f, path)
    {
      match path {
        case Passed => TxFrame(f, true);
        case LinkClosed =>
        case SessionGone => doneErr, exited := Some(SessionEnded), true;
      }
    }

    method HandleFlow(f: Flow, path: Path)
      modifies this
      ensures State() == SenderStep(old(State()), FlowIn(f, path))
    {
      hide Add32, Sub32, Reply;
      if f.linkCredit.None? {
        panicked := true;
        return;
      }
      var credit := Sub32(f.linkCredit.value, deliveryCount);
      if f.deliveryCount.Some? { credit := Add32(credit, f.deliveryCount.value); }
      linkCredit := credit;
      if !f.echo { return; }
      ReplyWith(OutFlow(CreditFlow(handle, Counters(deliveryCount, linkCredit))), path);
    }

    method HandleDetach(closed: bool, error: Value, passed: bool)
      modifies this
      ensures State() == SenderStep(old(State()), DetachIn(closed, error, passed))
    {
      if !closed {
        FailLink(passed);
        return;
      }
      if closeInProgress {
        if doneErr.None? { doneErr := Some(CleanClose); }
      } else {
        TxFrame(DetachOf(handle, false), passed);
        doneErr := Some(RemoteDetach(error));
      }
      exited := true;
    }

    /** One pass through the select. */
    method Pass(e: SenderEvent)
      requires SenderEnabled(State(), e)
      modifies this
      ensures State() == SenderStep(old(State()), e)
    {
      hide Add32, Sub32, FlowFormula, Reply, DetachReceived;
      match e {
        case FlowIn(f, path) => HandleFlow(f, path);
        case DispositionIn(d, path) =>
          if !d.settled { ReplyWith(OutDisposition(Confirmation(d)), path); }
        case DetachIn(closed, error, passed) => HandleDetach(closed, error, passed);
        case OtherIn(passed) => FailLink(passed);
        case TransferOut(env, path) =>
          if path.Passed? {
            TxFrame(OutTransfer(env), true);
            if !env.frame.more {
              deliveryCount := Add32(deliveryCount, 1);
              linkCredit := Sub32(linkCredit, 1);
            }
          }
        case ClientClose(passed) =>
          closeInProgress := true;
          TxFrame(DetachOf(handle, false), passed);
        case SessionDone => doneErr, exited := Some(SessionEnded), true;
        case Rollback =>
          deliveryCount := Sub32(deliveryCount, 1);
          linkCredit := Add32(linkCredit, 1);
      }
    }

    /** The mux over any run of events: its frames hold at most one detach, and no transfer after it. */
    method Drive(es: seq<SenderEvent>)
      requires SenderValid(State(), es) && DetachLast(End(), IsTransfer)
      modifies this
      ensures State() == SenderRun(old(State()), es)
      ensures DetachLast(End(), IsTransfer)
      ensures panicked == (old(panicked) || NilFlow(es))
    {
      hide SenderStep, SenderRun, SenderValid, SenderEnabled, DetachLast, NilFlow;
      SenderDetachRun(State(), es);
      SenderPanicRun(State(), es);
      SenderRunEnds(State(), es);
      var k := 0;
      while k < |es|
        invariant 0 <= k <= |es| && SenderValid(State(), es[k..])
        invariant SenderRun(State(), es[k..]) == SenderRun(old(State()), es)
      {
        SenderRunOnce(State(), es, k);
        Pass(es[k]);
        k := k + 1;
      }
      SenderRunEnds(State(), es[k..]);
    }
  }

  // ---- shutdown ----------------------------------------------------------------------

  /** After a detach, no second one and nothing of the kind that uses the link. */
  predicate DetachLast(l: LinkEnd, use: LinkOut -> bool) {
    forall k | 0 <= k < |l.out| :: l.out[k].OutDetach? ==>
      && (l.life.closing || l.life.exited)
      && forall j | k < j < |l.out| :: !l.out[j].OutDetach? && !use(l.out[j])
  }

  predicate IsTransfer(f: LinkOut) {
    f.OutTransfer?
  }

  lemma {:induction false} EmitKeeps(l: LinkEnd, f: LinkOut, use: LinkOut -> bool, life: LinkLife)
    requires DetachLast(l, use) && !l.life.exited
    requires l.life.closing ==> !f.OutDetach? && !use(f) && life.closing
    requires f.OutDetach? ==> life.closing || life.exited
    ensures DetachLast(LinkEnd(l.handle, life, l.out + [f]), use)
  {
    var r := LinkEnd(l.handle, life, l.out + [f]);
    forall k | 0 <= k < |r.out| && r.out[k].OutDetach?
      ensures && (r.life.closing || r.life.exited)
              && forall j | k < j < |r.out| :: !r.out[j].OutDetach? && !use(r.out[j])
    {
      if k < |l.out| { assert l.out[k].OutDetach?; }
    }
  }

  lemma {:induction false} LifeKeeps(l: LinkEnd, use: LinkOut -> bool, life: LinkLife)
    requires DetachLast(l, use) && (l.life.closing || l.life.exited ==> life.closing || life.exited)
    ensures DetachLast(l.(life := life), use)
  {
  }

  /** The cases both muxes share. */
  lemma {:induction false} CommonKeeps(l: LinkEnd, use: LinkOut -> bool, closed: bool, error: Value, passed: bool, reason: LinkReason)
    requires DetachLast(l, use) && !l.life.exited
    ensures DetachLast(CloseWithError(l, passed), use)
    ensures DetachLast(CloseByClient(l, passed), use)
    ensures DetachLast(DetachReceived(l, closed, error, passed), use)
    ensures DetachLast(Exit(l, reason), use)
  {
    hide DetachLast;
    LifeKeeps(l, use, Exit(l, reason).life);
    LifeKeeps(l, use, CloseWithError(l, passed).life);
    LifeKeeps(l, use, CloseByClient(l, passed).life);
    LifeKeeps(l, use, DetachReceived(l, closed, error, passed).life);
    if !l.life.closing {
      EmitKeeps(l, DetachOf(l.handle, true), use, CloseWithError(l, passed).life);
      EmitKeeps(l, DetachOf(l.handle, false), use, CloseByClient(l, passed).life);
      EmitKeeps(l, DetachOf(l.handle, false), use, Exit(l, RemoteDetach(error)).life);
    }
  }

  lemma {:induction false} ReplyKeeps(l: LinkEnd, f: LinkOut, use: LinkOut -> bool, path: Path)
    requires DetachLast(l, use) && !l.life.exited && !f.OutDetach? && !use(f)
    ensures DetachLast(Reply(l, f, path), use)
  {
    hide DetachLast;
    EmitKeeps(l, f, use, l.life);
    LifeKeeps(l, use, Exit(l, SessionEnded).life);
  }

  lemma {:induction false} SenderDetachStep(s: SenderState, e: SenderEvent)
    requires DetachLast(s.end, IsTransfer) && SenderEnabled(s, e)
    ensures DetachLast(SenderStep(s, e).end, IsTransfer)
  {
    hide DetachLast, CloseWithError, CloseByClient, DetachReceived, Exit, Reply, FlowFormula;
    var l := s.end;
    match e {
      case FlowIn(f, path) =>
        if f.linkCredit.Some? {
          var c := FlowFormula(s.counters, f.linkCredit.value, f.deliveryCount);
          ReplyKeeps(l, OutFlow(CreditFlow(l.handle, c)), IsTransfer, path);
        }
      case DispositionIn(d, path) => ReplyKeeps(l, OutDisposition(Confirmation(d)), IsTransfer, path);
      case DetachIn(closed, error, passed) => CommonKeeps(l, IsTransfer, closed, error, passed, SessionEnded);
      case OtherIn(passed) => CommonKeeps(l, IsTransfer, true, Null, passed, SessionEnded);
      case TransferOut(env, path) => EmitKeeps(l, OutTransfer(env), IsTransfer, l.life);
      case ClientClose(passed) => CommonKeeps(l, IsTransfer, true, Null, passed, SessionEnded);
      case SessionDone => CommonKeeps(l, IsTransfer, true, Null, true, SessionEnded);
      case Rollback =>
    }
  }

  /** A sender emits at most one detach, and after it no transfer. */
  lemma {:induction false} SenderDetachRun(s: SenderState, es: seq<SenderEvent>)
    requires SenderValid(s, es) && DetachLast(s.end, IsTransfer)
    ensures DetachLast(SenderRun(s, es).end, IsTransfer)
    decreases |es|
  {
    hide SenderStep, DetachLast;
    if es != [] {
      SenderDetachStep(s, es[0]);
      SenderDetachRun(SenderStep(s, es[0]), es[1..]);
    }
  }

  /** A flow for the link that names no credit. */
  predicate NilFlow(es: seq<SenderEvent>) {
    exists k :: 0 <= k < |es| && es[k].FlowIn? && es[k].flow.linkCredit.None?
  }

  /** The sender's process panics exactly when such a flow reaches the mux, and then nothing follows. */
  lemma {:induction false} SenderPanicRun(s: SenderState, es: seq<SenderEvent>)
    requires SenderValid(s, es)
    ensures SenderRun(s, es).panicked == (s.panicked || NilFlow(es))
    ensures NilFlow(es) ==> es[|es| - 1].FlowIn? && es[|es| - 1].flow.linkCredit.None?
    decreases |es|
  {
    hide FlowFormula, AfterTransfer, RolledBack, Reply, DetachReceived, CloseWithError, CloseByClient, Exit;
    if es != [] {
      SenderPanicRun(SenderStep(s, es[0]), es[1..]);
      assert NilFlow(es[1..]) ==> NilFlow(es) by {
        if NilFlow(es[1..]) {
          var k :| 0 <= k < |es[1..]| && es[1..][k].FlowIn? && es[1..][k].flow.linkCredit.None?;
          assert es[k + 1] == es[1..][k];
        }
      }
      if k :| 0 <= k < |es| && es[k].FlowIn? && es[k].flow.linkCredit.None? {
        if k > 0 { assert es[1..][k - 1] == es[k]; }
      }
    }
  }

  /** The error a sender closed its link with is the error it ends with, unless the session ends first. */
  lemma {:induction false} SenderErrorSurvives(s: SenderState, es: seq<SenderEvent>)
    requires SenderValid(s, es) && s.end.life.closing && s.end.life.doneErr == Some(LocalError)
    requires forall k | 0 <= k < |es| ::
               && !es[k].SessionDone?
               && !(es[k].FlowIn? && es[k].path.SessionGone?) && !(es[k].DispositionIn? && es[k].path.SessionGone?)
    ensures SenderRun(s, es).end.life.doneErr == Some(LocalError)
    decreases |es|
  {
    hide FlowFormula, AfterTransfer, RolledBack;
    if es != [] { SenderErrorSurvives(SenderStep(s, es[0]), es[1..]); }
  }
}
