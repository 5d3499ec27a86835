/** The receiver's mux: credit, drains, settlements counted back into credit, and its detach. */
module Receiving {
  import opened Words
  import opened Values
  import opened Frames
  import opened Links

  // ---- the creditor ------------------------------------------------------------------

  /** Values for the next flow; draining while a drain waits for the peer's answer. */
  datatype Creditor = Creditor(pendingDrain: bool, creditsToAdd: uint32, draining: bool)

  const IDLE_CREDITOR: Creditor := Creditor(false, 0, false)

  datatype Bits = Bits(drain: bool, credits: uint32)

  function IssueCredit(c: Creditor, credits: uint32): (r: Creditor) {
    if c.draining then c else c.(creditsToAdd := Add32(c.creditsToAdd, credits))
  }

  function StartDrain(c: Creditor): (r: Creditor) {
    if c.draining then c else c.(draining := true, pendingDrain := true)
  }

  function EndDrain(c: Creditor): (r: Creditor) {
    c.(draining := false)
  }

  function FlowBits(c: Creditor, current: uint32): (b: Bits) {
    Bits(c.pendingDrain, if c.pendingDrain || c.creditsToAdd == 0 then 0 else Add32(c.creditsToAdd, current))
  }

  function AfterFlowBits(c: Creditor): (r: Creditor) {
    c.(pendingDrain := false, creditsToAdd := 0)
  }

  class CreditorState {
    var pendingDrain: bool
    var creditsToAdd: uint32
    var draining: bool

    constructor ()
      ensures State() == IDLE_CREDITOR
    {
      pendingDrain, creditsToAdd, draining := false, 0, false;
    }

    ghost function State(): (c: Creditor)
      reads this
    {
      Creditor(pendingDrain, creditsToAdd, draining)
    }

    method Issue(credits: uint32) returns (ok: bool)
      modifies this`creditsToAdd
      ensures ok == !draining && State() == IssueCredit(old(State()), credits)
    {
      if draining { return false; }
      creditsToAdd := Add32(creditsToAdd, credits);
      return true;
    }

    /** The part of Drain before it waits. */
    method Drain() returns (ok: bool)
      modifies this`draining, this`pendingDrain
      ensures ok == !old(draining) && State() == StartDrain(old(State()))
    {
      if draining { return false; }
      draining, pendingDrain := true, true;
      return true;
    }

    method End()
      modifies this`draining
      ensures State() == EndDrain(old(State()))
    {
      draining := false;
    }

    method Flow(currentCredits: uint32) returns (drain: bool, credits: uint32)
      modifies this`pendingDrain, this`creditsToAdd
      ensures Bits(drain, credits) == FlowBits(old(State()), currentCredits)
      ensures State() == AfterFlowBits(old(State()))
    {
      drain := pendingDrain;
      if pendingDrain { pendingDrain := false; }
      if drain || creditsToAdd == 0 { credits := 0; } else { credits := Add32(creditsToAdd, currentCredits); }
      creditsToAdd := 0;
    }
  }

  // ---- the mux -----------------------------------------------------------------------

  datatype ReceiverState = ReceiverState(auto: bool, counters: Counters, settlementCount: uint32, creditor: Creditor,
                                         end: LinkEnd)

  /** muxFlow: the receiver's own credit is set unless draining. */
  function SendFlow(r: ReceiverState, b: Bits, path: Path): (s: ReceiverState) {
    var f := CreditFlow(r.end.handle, Counters(r.counters.count, b.credits)).(drain := b.drain);
    r.(counters := if b.drain then r.counters else r.counters.(credit := b.credits),
       end := Reply(r.end, OutFlow(f), path))
  }

  /**
   Settled deliveries are turned back into credit once they reach the credit left. The result of
   issuing it becomes the link's error, also when that is no error and there was one.
   */
  function Reclaim(r: ReceiverState): (s: ReceiverState) {
    var n := r.settlementCount;
    if n < r.counters.credit then r
    else
      var s := r.(settlementCount := 0);
      if !r.auto || n == 0 then s
      else s.(creditor := IssueCredit(r.creditor, n),
              end := r.end.(life := r.end.life.(doneErr := if r.creditor.draining then Some(LocalError) else None)))
  }

  function Leave(r: ReceiverState): (s: ReceiverState) {
    r.(end := r.end.(life := r.end.life.(exited := true)))
  }

  /** The pass down to the select: reclaim, leave if there is an error, send a flow if one is due. */
  function Prepare(r: ReceiverState, path: Path): (s: ReceiverState) {
    var s := Reclaim(r);
    if s.end.life.doneErr.Some? then Leave(s)
    else
      var b := FlowBits(s.creditor, s.counters.credit);
      var s := s.(creditor := AfterFlowBits(s.creditor));
      if b.drain || b.credits > 0 then SendFlow(s, b, path) else s
  }

  /** What the mux takes from its select, or another goroutine does meanwhile. */
  datatype ReceiverEvent =
    | TransferIn(last: bool)                    // accepted by muxReceive
    | BadTransferIn(passed: bool)               // refused by it
    | FlowIn(flow: Flow, path: Path)
    | SettledIn(count: uint32)                  // a disposition, or a settlement outside the mux
    | DetachIn(closed: bool, error: Value, passed: bool)
    | OtherIn(passed: bool)
    | DispositionOut(disposition: Disposition, passed: bool)
    | ClientClose(passed: bool)
    | SessionDone
    | UserCredit(credits: uint32)
    | UserDrain
    | Top(path: Path)                           // the pass down to the select

  function Handle(r: ReceiverState, e: ReceiverEvent): (s: ReceiverState) {
    match e
    case TransferIn(last) =>
      if last then r.(counters := Counters(Add32(r.counters.count, 1), Sub32(r.counters.credit, 1))) else r
    case BadTransferIn(passed) => r.(end := CloseWithError(r.end, passed))
    case FlowIn(f, path) =>
      if f.echo then r.(end := Reply(r.end, OutFlow(CreditFlow(r.end.handle, r.counters)), path))
      else if f.drain && !r.auto then
        r.(counters := r.counters.(credit := 0), creditor := EndDrain(r.creditor))
      else r
    case SettledIn(count) => if r.auto then r.(settlementCount := Add32(r.settlementCount, count)) else r
    case DetachIn(closed, error, passed) => r.(end := DetachReceived(r.end, closed, error, passed))
    case OtherIn(passed) => r.(end := CloseWithError(r.end, passed))
    case DispositionOut(d, passed) => r.(end := Emit(r.end, OutDisposition(d), passed))
    case ClientClose(passed) => r.(end := CloseByClient(r.end, passed))
    case SessionDone => r.(end := Exit(r.end, SessionEnded))
    case UserCredit(credits) => if r.auto then r else r.(creditor := IssueCredit(r.creditor, credits))
    case UserDrain => if r.auto then r else r.(creditor := StartDrain(r.creditor))
    case Top(path) => Prepare(r, path)
  }

  /** On its way out the mux releases a drain that still waits. */
  function Unwind(r: ReceiverState): (s: ReceiverState) {
    if r.end.life.exited && !r.auto then r.(creditor := EndDrain(r.creditor)) else r
  }

  function Step(r: ReceiverState, e: ReceiverEvent): (s: ReceiverState) {
    Unwind(Handle(r, e))
  }

  predicate Enabled(r: ReceiverState, e: ReceiverEvent) {
    && !r.end.life.exited
    && match e
       case DispositionOut(_, _) => !r.end.life.closing
       case ClientClose(_) => !r.end.life.closing
       case _ => true
  }

  function Run(r: ReceiverState, es: seq<ReceiverEvent>): (s: ReceiverState)
    decreases |es|
  {
    if es == [] then r else Run(Step(r, es[0]), es[1..])
  }

  predicate ValidRun(r: ReceiverState, es: seq<ReceiverEvent>)
    decreases |es|
  {
    es == [] || (Enabled(r, es[0]) && ValidRun(Step(r, es[0]), es[1..]))
  }

  lemma {:induction false} RunOnce(r: ReceiverState, es: seq<ReceiverEvent>, k: nat)
    requires k < |es| && ValidRun(r, es[k..])
    ensures Enabled(r, es[k]) && ValidRun(Step(r, es[k]), es[k + 1..])
    ensures Run(r, es[k..]) == Run(Step(r, es[k]), es[k + 1..])
  {
    hide Step, Enabled;
    assert es[k..][1..] == es[k + 1..];
  }

  lemma {:induction false} RunEnds(r: ReceiverState, es: seq<ReceiverEvent>)
    ensures es == [] ==> Run(r, es) == r
    ensures es[0..] == es && es[|es|..] == []
  {
  }

  class ReceiverMux {
    const handle: uint32
    const autoSendFlow: bool
    const creditor: CreditorState
    var deliveryCount: uint32
    var linkCredit: uint32
    var settlementCount: uint32
    var closeInProgress: bool
    var doneErr: Option<LinkReason>
    var exited: bool
    var out: seq<LinkOut>

    constructor (handle: uint32, autoSendFlow: bool, deliveryCount: uint32, linkCredit: uint32)
      ensures State() == ReceiverState(autoSendFlow, Counters(deliveryCount, linkCredit), 0, IDLE_CREDITOR,
                                       LinkEnd(handle, OPEN_LINK, []))
      ensures fresh(creditor)
    {
      this.handle, this.autoSendFlow := handle, autoSendFlow;
      this.deliveryCount, this.linkCredit, settlementCount := deliveryCount, linkCredit, 0;
      closeInProgress, doneErr, exited, out := false, None, false, [];
      creditor := new CreditorState();
    }

    ghost function EndNow(): (l: LinkEnd)
      reads this
    {
      LinkEnd(handle, LinkLife(closeInProgress, doneErr, exited), out)
    }

    ghost function State(): (r: ReceiverState)
      reads this, creditor
    {
      ReceiverState(autoSendFlow, Counters(deliveryCount, linkCredit), settlementCount, creditor.State(), EndNow())
    }

    method TxFrame(f: LinkOut, passed: bool)
      modifies this`out
      ensures EndNow() == Emit(old(EndNow()), f, passed)
    {
      if passed { out := out + [f]; }
    }

    method FailLink(passed: bool)
      modifies this`closeInProgress, this`doneErr, this`out
      ensures EndNow() == CloseWithError(old(EndNow()), passed)
    {
      if closeInProgress { return; }
      closeInProgress := true;
      doneErr := Some(LocalError);
      TxFrame(DetachOf(handle, true), passed);
    }

    method ReplyWith(f: LinkOut, path: Path)
      modifies this`out, this`doneErr, this`exited
      ensures EndNow() == Reply(old(EndNow()), f, path)
    {
      match path {
        case Passed => TxFrame(f, true);
        case LinkClosed =>
        case SessionGone => doneErr, exited := Some(SessionEnded), true;
      }
    }

    method MuxFlow(credits: uint32, drain: bool, path: Path)
      modifies this`linkCredit, this`out, this`doneErr, this`exited
      ensures State() == SendFlow(old(State()), Bits(drain, credits), path)
    {
      var fr := CreditFlow(handle, Counters(deliveryCount, credits)).(drain := drain);
      if !drain { linkCredit := credits; }
      ReplyWith(OutFlow(fr), path);
    }

    method ReclaimCredit()
      modifies this`settlementCount, this`doneErr, creditor
      ensures State() == Reclaim(old(State()))
    {
      var previous := settlementCount;
      if previous >= linkCredit { settlementCount := 0; }
      if autoSendFlow && previous > 0 && previous >= linkCredit {
        var ok := creditor.Issue(previous);
        doneErr := if ok then None else Some(LocalError);
      }
    }

    /** The pass down to the select. */
    method TopOfLoop(path: Path)
      modifies this, creditor
      ensures State() == Prepare(old(State()), path)
    {
      hide Reclaim, SendFlow;
      ReclaimCredit();
      if doneErr.Some? {
        exited := true;
        return;
      }
      var drain, credits := creditor.Flow(linkCredit);
      if drain || credits > 0 { MuxFlow(credits, drain, path); }
    }

    method HandleDetach(closed: bool, error: Value, passed: bool)
      modifies this
      ensures State() == Handle(old(State()), ReceiverEvent.DetachIn(closed, error, passed))
    {
      if !closed {
        FailLink(passed);
        return;
      }
      if closeInProgress {
        if doneErr.None? { doneErr := Some(CleanClose); }
      } else {
        TxFrame(DetachOf(handle, false), passed);
        doneErr := Some(RemoteDetach(error));
      }
      exited := true;
    }

    method HandleFlow(f: Flow, path: Path)
      modifies this, creditor
      ensures State() == Handle(old(State()), ReceiverEvent.FlowIn(f, path))
    {
      if !f.echo {
        if f.drain && !autoSendFlow {
          linkCredit := 0;
          creditor.End();
        }
        return;
      }
      ReplyWith(OutFlow(CreditFlow(handle, Counters(deliveryCount, linkCredit))), path);
    }

    method Pass(e: ReceiverEvent)
      requires Enabled(State(), e)
      modifies this, creditor
      ensures State() == Step(old(State()), e)
    {
      hide Add32, Sub32, Prepare, DetachReceived, CloseWithError, Reply;
      match e {
        case TransferIn(last) =>
          if last { deliveryCount, linkCredit := Add32(deliveryCount, 1), Sub32(linkCredit, 1); }
        case BadTransferIn(passed) => FailLink(passed);
        case FlowIn(f, path) => HandleFlow(f, path);
        case SettledIn(count) =>
          if autoSendFlow { settlementCount := Add32(settlementCount, count); }
        case DetachIn(closed, error, passed) => HandleDetach(closed, error, passed);
        case OtherIn(passed) => FailLink(passed);
        case DispositionOut(d, passed) => TxFrame(OutDisposition(d), passed);
        case ClientClose(passed) =>
          closeInProgress := true;
          TxFrame(DetachOf(handle, false), passed);
        case SessionDone => doneErr, exited := Some(SessionEnded), true;
        case UserCredit(credits) => if !autoSendFlow { var ok := creditor.Issue(credits); }
        case UserDrain => if !autoSendFlow { var ok := creditor.Drain(); }
        case Top(path) => TopOfLoop(path);
      }
      if exited && !autoSendFlow { creditor.End(); }
    }

    /** The mux over any run of events: its frames hold at most one detach, and no disposition after it. */
    method Drive(es: seq<ReceiverEvent>)
      requires ValidRun(State(), es) && DetachLast(EndNow(), IsDisposition)
      modifies this, creditor
      ensures State() == Run(old(State()), es)
      ensures DetachLast(EndNow(), IsDisposition)
    {
      hide Step, Run, ValidRun, Enabled, DetachLast;
      DetachRun(State(), es);
      RunEnds(State(), es);
      var k := 0;
      while k < |es|
        invariant 0 <= k <= |es| && ValidRun(State(), es[k..])
        invariant Run(State(), es[k..]) == Run(old(State()), es)
      {
        RunOnce(State(), es, k);
        Pass(es[k]);
        k := k + 1;
      }
      RunEnds(State(), es[k..]);
    }
  }

  // ---- shutdown ----------------------------------------------------------------------

  predicate IsDisposition(f: LinkOut) {
    f.OutDisposition?
  }

  lemma {:induction false} PrepareKeeps(r: ReceiverState, path: Path)
    requires DetachLast(r.end, IsDisposition) && !r.end.life.exited
    ensures DetachLast(Prepare(r, path).end, IsDisposition)
  {
    hide DetachLast, Reply;
    var s := Reclaim(r);
    assert s.end == r.end.(life := s.end.life);
    LifeKeeps(r.end, IsDisposition, s.end.life);
    LifeKeeps(r.end, IsDisposition, Leave(s).end.life);
    var b := FlowBits(s.creditor, s.counters.credit);
    var f := OutFlow(CreditFlow(s.end.handle, Counters(s.counters.count, b.credits)).(drain := b.drain));
    ReplyKeeps(s.end, f, IsDisposition, path);
  }

  lemma {:induction false} DetachStep(r: ReceiverState, e: ReceiverEvent)
    requires DetachLast(r.end, IsDisposition) && Enabled(r, e)
    ensures DetachLast(Step(r, e).end, IsDisposition)
  {
    hide DetachLast, Links.CloseWithError, CloseByClient, DetachReceived, Exit, Reply, Prepare;
    var l := r.end;
    match e {
      case BadTransferIn(passed) => CommonKeeps(l, IsDisposition, true, Null, passed, SessionEnded);
      case FlowIn(f, path) => ReplyKeeps(l, OutFlow(CreditFlow(l.handle, r.counters)), IsDisposition, path);
      case DetachIn(closed, error, passed) => CommonKeeps(l, IsDisposition, closed, error, passed, SessionEnded);
      case OtherIn(passed) => CommonKeeps(l, IsDisposition, true, Null, passed, SessionEnded);
      case DispositionOut(d, passed) => EmitKeeps(l, OutDisposition(d), IsDisposition, l.life);
      case ClientClose(passed) => CommonKeeps(l, IsDisposition, true, Null, passed, SessionEnded);
      case SessionDone => CommonKeeps(l, IsDisposition, true, Null, true, SessionEnded);
      case Top(path) => PrepareKeeps(r, path);
      case _ =>
    }
  }

  /** A receiver emits at most one detach, and after it no disposition. */
  lemma {:induction false} DetachRun(r: ReceiverState, es: seq<ReceiverEvent>)
    requires ValidRun(r, es) && DetachLast(r.end, IsDisposition)
    ensures DetachLast(Run(r, es).end, IsDisposition)
    decreases |es|
  {
    hide Step, DetachLast;
    if es != [] {
      DetachStep(r, es[0]);
      DetachRun(Step(r, es[0]), es[1..]);
    }
  }

  // ---- a link's own error ------------------------------------------------------------

  /** Credit is about to be reclaimed. */
  predicate ReclaimDue(r: ReceiverState) {
    r.auto && 0 < r.settlementCount && r.settlementCount >= r.counters.credit && !r.creditor.draining
  }

  /** A receiver that closed its link with an error leaves with that error unless credit is due for reclaiming. */
  lemma {:induction false} LocalErrorKept(r: ReceiverState, path: Path)
    requires r.end.life.doneErr == Some(LocalError) && !r.end.life.exited
    ensures (Step(r, Top(path)).end.life.exited && Step(r, Top(path)).end.life.doneErr == Some(LocalError))
            <==> !ReclaimDue(r)
  {
  }

  /** When it is, the error is lost: once the peer answers the detach, the link reports a clean close. */
  lemma {:induction false} LocalErrorLost(r: ReceiverState, path: Path, error: Value, passed: bool)
    requires r.end.life == LinkLife(true, Some(LocalError), false) && ReclaimDue(r) && path != SessionGone
    ensures var es := [Top(path), ReceiverEvent.DetachIn(true, error, passed)];
            ValidRun(r, es) && Run(r, es).end.life == LinkLife(true, Some(CleanClose), true)
  {
    var es := [Top(path), ReceiverEvent.DetachIn(true, error, passed)];
    hide Prepare, DetachReceived;
    RunTwice(r, es[0], es[1]);
    ReclaimForgets(r, path);
    AnsweredDetach(Step(r, es[0]).end, error, passed);
  }

  lemma {:induction false} RunTwice(r: ReceiverState, e: ReceiverEvent, f: ReceiverEvent)
    ensures Run(r, [e, f]) == Step(Step(r, e), f)
    ensures ValidRun(r, [e, f]) == (Enabled(r, e) && Enabled(Step(r, e), f))
  {
    hide Step, Enabled;
    assert [e, f][1..] == [f] && [f][1..] == [];
    assert Run(Step(r, e), [f]) == Run(Step(Step(r, e), f), []);
    assert ValidRun(Step(r, e), [f]) == Enabled(Step(r, e), f);
  }

  lemma {:induction false} ReclaimForgets(r: ReceiverState, path: Path)
    requires r.end.life == LinkLife(true, Some(LocalError), false) && ReclaimDue(r) && path != SessionGone
    ensures Step(r, Top(path)).end.life == LinkLife(true, None, false)
  {
  }

  lemma {:induction false} AnsweredDetach(l: LinkEnd, error: Value, passed: bool)
    requires l.life == LinkLife(true, None, false)
    ensures DetachReceived(l, true, error, passed).life == LinkLife(true, Some(CleanClose), true)
  {
  }

  /**
   Such a state is reached from a new receiver with two credits: one message, its settlement, and
   then a transfer that is refused.
   */
  lemma {:induction false} LocalErrorReached(handle: uint32, count: uint32)
    ensures var r := ReceiverState(true, Counters(count, 2), 0, IDLE_CREDITOR, LinkEnd(handle, OPEN_LINK, []));
            var es := [Top(Passed), TransferIn(true), Top(Passed), SettledIn(1), BadTransferIn(true)];
            && ValidRun(r, es)
            && Run(r, es).end.life == LinkLife(true, Some(LocalError), false) && ReclaimDue(Run(r, es))
  {
    var r := ReceiverState(true, Counters(count, 2), 0, IDLE_CREDITOR, LinkEnd(handle, OPEN_LINK, []));
    var es := [Top(Passed), TransferIn(true), Top(Passed), SettledIn(1), BadTransferIn(true)];
    assert Step(r, es[0]) == r;
    var s := Step(r, es[1]);
    assert s.counters.credit == 1 && s == r.(counters := s.counters);
    assert Step(s, es[2]) == s;
    var t := Step(s, es[3]);
    assert t == s.(settlementCount := 1);
    var tail := [es[3], es[4]];
    hide Step, Enabled;
    RunTwice(s, es[3], es[4]);
    assert es[1..][1..][1..] == tail;
    assert Run(r, es) == Run(s, tail);
  }
}
