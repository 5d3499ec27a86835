/** What the two link muxes put on the wire, frame by frame, and how each ends. */
module LinkFrames {
  import opened Words
  import opened Values
  import opened Frames
  import opened Links
  import Delivery
  import R = Receiving
  import S = Session
  import SessionRuns
  import Settlement

  // ---- frames ------------------------------------------------------------------------

  /** A detach that closes the link, with or without an error of ours. */
  predicate IsDetach(f: LinkOut, handle: uint32, failed: bool) {
    && f.OutDetach? && f.detach.DetachBody? && f.detach.handle == handle && f.detach.closed
    && if failed then f.detach.error.Composite? && f.detach.error.code == 0x1d else f.detach.error == Null
  }

  /** A flow for the link, stating its counters. */
  predicate IsFlow(f: LinkOut, handle: uint32, count: uint32, credit: uint32, drain: bool) {
    && f.OutFlow? && f.flow.handle == Some(handle) && f.flow.deliveryCount == Some(count)
    && f.flow.linkCredit == Some(credit) && f.flow.drain == drain && !f.flow.echo
    && f.flow.available == None && f.flow.properties == Null
  }

  /** The confirmation of an unsettled disposition: the same deliveries and the same state, settled, in the sender's role. */
  predicate IsConfirmation(f: LinkOut, d: Disposition) {
    && f.OutDisposition? && !f.disposition.role && f.disposition.settled
    && f.disposition.first == d.first && f.disposition.last == d.last && f.disposition.state == d.state
  }

  /** The frames put out by a step are one that satisfies p, or none. */
  predicate PutsOut(before: LinkEnd, after: LinkEnd, any: bool, p: LinkOut -> bool) {
    if any then |after.out| == |before.out| + 1 && before.out <= after.out && p(after.out[|before.out|])
    else after.out == before.out
  }

  // ---- the sender --------------------------------------------------------------------

  /** A flow asks for an answer: the sender states the counters it has come to. */
  lemma {:induction false} SenderAnswersFlow(s: SenderState, f: Flow, path: Path)
    requires SenderEnabled(s, SenderEvent.FlowIn(f, path)) && f.linkCredit.Some?
    ensures var r := SenderStep(s, SenderEvent.FlowIn(f, path));
            && r.counters.count == s.counters.count
            && PutsOut(s.end, r.end, f.echo && path.Passed?,
                       (x: LinkOut) => IsFlow(x, s.end.handle, r.counters.count, r.counters.credit, false))
            && r.end.life == (if f.echo && path.SessionGone? then LinkLife(s.end.life.closing, Some(SessionEnded), true)
                              else s.end.life)
  {
  }

  /** An unsettled disposition is confirmed, and a settled one is not answered. */
  lemma {:induction false} SenderConfirms(s: SenderState, d: Disposition, path: Path)
    requires SenderEnabled(s, DispositionIn(d, path))
    ensures var r := SenderStep(s, DispositionIn(d, path));
            && r.counters == s.counters
            && PutsOut(s.end, r.end, !d.settled && path.Passed?, (x: LinkOut) => IsConfirmation(x, d))
            && r.end.life == (if !d.settled && path.SessionGone? then LinkLife(s.end.life.closing, Some(SessionEnded), true)
                              else s.end.life)
  {
  }

  /** A transfer taken by the session is put out as it is, and the last of a message uses a credit. */
  lemma {:induction false} SenderTransfers(s: SenderState, env: Delivery.Envelope, path: Path)
    requires SenderEnabled(s, TransferOut(env, path))
    ensures var r := SenderStep(s, TransferOut(env, path));
            && PutsOut(s.end, r.end, path.Passed?, (x: LinkOut) => x == OutTransfer(env)) && r.end.life == s.end.life
            && r.counters == (if path.Passed? && !env.frame.more
                              then Counters(Add32(s.counters.count, 1), s.counters.credit - 1) else s.counters)
  {
  }

  // ---- closing, for both ends --------------------------------------------------------

  /** A link that finds an error closes with it once, and stays until the peer answers. */
  lemma {:induction false} FailureDetaches(l: LinkEnd, passed: bool)
    ensures var r := CloseWithError(l, passed);
            && PutsOut(l, r, !l.life.closing && passed, (x: LinkOut) => IsDetach(x, l.handle, true))
            && r.life == (if l.life.closing then l.life else LinkLife(true, Some(LocalError), l.life.exited))
  {
  }

  /** A link the client closes detaches without an error. */
  lemma {:induction false} ClientDetaches(l: LinkEnd, passed: bool)
    requires !l.life.closing
    ensures var r := CloseByClient(l, passed);
            && PutsOut(l, r, passed, (x: LinkOut) => IsDetach(x, l.handle, false))
            && r.life == l.life.(closing := true)
  {
  }

  /**
   The peer's detach: one that does not close is an error; one that does is answered and ends the link
   with the peer's error, or ends the close we began, with our error if there was one.
   */
  lemma {:induction false} DetachAnswered(l: LinkEnd, closed: bool, error: Value, passed: bool)
    ensures var r := DetachReceived(l, closed, error, passed);
            && PutsOut(l, r, !l.life.closing && passed, (x: LinkOut) => IsDetach(x, l.handle, !closed))
            && (if !closed then r.life == (if l.life.closing then l.life else LinkLife(true, Some(LocalError), l.life.exited))
                else if l.life.closing
                then r.life == LinkLife(true, if l.life.doneErr.None? then Some(CleanClose) else l.life.doneErr, true)
                else r.life == LinkLife(false, Some(RemoteDetach(error)), true))
  {
  }

  /** Where those are used: every frame that closes a link, on either side. */
  lemma {:induction false} SenderCloses(s: SenderState, closed: bool, error: Value, passed: bool)
    ensures SenderStep(s, SenderEvent.DetachIn(closed, error, passed))
         == s.(end := DetachReceived(s.end, closed, error, passed))
    ensures SenderStep(s, SenderEvent.OtherIn(passed)) == s.(end := CloseWithError(s.end, passed))
    ensures SenderStep(s, SenderEvent.ClientClose(passed)) == s.(end := CloseByClient(s.end, passed))
    ensures var r := SenderStep(s, SenderEvent.SessionDone);
            r.end.out == s.end.out && r.end.life == LinkLife(s.end.life.closing, Some(SessionEnded), true)
  {
  }

  // ---- the receiver ------------------------------------------------------------------

  /** A disposition of the user's goes out as it is, while the link is open. */
  lemma {:induction false} ReceiverDisposes(r: R.ReceiverState, d: Disposition, passed: bool)
    requires R.Enabled(r, R.DispositionOut(d, passed))
    ensures var s := R.Step(r, R.DispositionOut(d, passed));
            && PutsOut(r.end, s.end, passed, (x: LinkOut) => x == OutDisposition(d))
            && s == r.(end := r.end.(out := s.end.out))
  {
  }

  lemma {:induction false} ReceiverAnswersFlow(r: R.ReceiverState, f: Flow, path: Path)
    requires R.Enabled(r, R.ReceiverEvent.FlowIn(f, path)) && f.echo
    ensures var s := R.Step(r, R.ReceiverEvent.FlowIn(f, path));
            && s.counters == r.counters
            && PutsOut(r.end, s.end, path.Passed?,
                       (x: LinkOut) => IsFlow(x, r.end.handle, r.counters.count, r.counters.credit, false))
            && s.end.life == (if path.SessionGone? then LinkLife(r.end.life.closing, Some(SessionEnded), true) else r.end.life)
  {
  }

  /** Credit the next pass has to give: what was issued, and on automatic credit what was settled, once it is enough. */
  function ToGive(r: R.ReceiverState): (n: uint32) {
    if r.auto && r.settlementCount >= r.counters.credit && !r.creditor.draining
    then Add32(r.creditor.creditsToAdd, r.settlementCount) else r.creditor.creditsToAdd
  }

  /**
   The pass of an open receiver: a drain is asked for with no credit and leaves its own as it is;
   otherwise new credit is added to what is left and stated, if the sum is not zero.
   */
  lemma {:induction false} ReceiverPasses(r: R.ReceiverState, path: Path)
    requires r.end.life == OPEN_LINK && (r.creditor.pendingDrain ==> r.creditor.draining) && (r.creditor.draining ==> !r.auto)
    ensures var s := R.Step(r, R.Top(path));
            var n, sum := ToGive(r), Add32(ToGive(r), r.counters.credit);
            if r.creditor.pendingDrain then
              && s.counters == r.counters
              && PutsOut(r.end, s.end, path.Passed?, (x: LinkOut) => IsFlow(x, r.end.handle, r.counters.count, 0, true))
            else
              && s.counters == (if n == 0 || sum == 0 then r.counters else r.counters.(credit := sum))
              && PutsOut(r.end, s.end, n != 0 && sum != 0 && path.Passed?,
                         (x: LinkOut) => IsFlow(x, r.end.handle, r.counters.count, sum, false))
  {
    NoWrap(r.creditor.creditsToAdd, 0);
  }

  lemma {:induction false} ReceiverCloses(r: R.ReceiverState, closed: bool, error: Value, passed: bool)
    ensures R.Step(r, R.ReceiverEvent.DetachIn(closed, error, passed)).end == DetachReceived(r.end, closed, error, passed)
    ensures R.Step(r, R.ReceiverEvent.OtherIn(passed)).end == CloseWithError(r.end, passed)
    ensures R.Step(r, R.BadTransferIn(passed)).end == CloseWithError(r.end, passed)
    ensures R.Step(r, R.ReceiverEvent.ClientClose(passed)).end == CloseByClient(r.end, passed)
    ensures var s := R.Step(r, R.ReceiverEvent.SessionDone);
            s.end.out == r.end.out && s.end.life == LinkLife(r.end.life.closing, Some(SessionEnded), true)
  {
  }

  /**
   What moves a receiver's counters, and what does not: a whole message, the pass, and on manual credit
   the answer to a drain. Settlements count on automatic credit only, and become credit in the pass.
   */
  lemma {:induction false} ReceiverMoves(r: R.ReceiverState, e: R.ReceiverEvent)
    ensures var s := R.Step(r, e);
            && (match e
                case TransferIn(true) =>
                  s.counters == Counters(Add32(r.counters.count, 1), Sub32(r.counters.credit, 1))
                case FlowIn(f, _) =>
                  s.counters == (if f.drain && !f.echo && !r.auto then Counters(r.counters.count, 0) else r.counters)
                case Top(_) => s.counters.count == r.counters.count
                case _ => s.counters == r.counters)
            && s.settlementCount == (if e.SettledIn? && r.auto then Add32(r.settlementCount, e.count)
                                     else if e.Top? && r.settlementCount >= r.counters.credit then 0
                                     else r.settlementCount)
  {
    hide DetachReceived, CloseWithError, CloseByClient, Reply, Exit, Emit, Add32, Sub32;
  }

  /** However the mux ends, nobody is left waiting for a drain. */
  lemma {:induction false} DrainReleased(r: R.ReceiverState, e: R.ReceiverEvent)
    requires (r.creditor.draining ==> !r.auto) && R.Step(r, e).end.life.exited
    ensures !R.Step(r, e).creditor.draining
  {
    hide DetachReceived, CloseWithError, CloseByClient, Reply, Exit, Emit, Add32, Sub32;
  }

  /** A drain the user asks for is sent by the next pass. */
  lemma {:induction false} DrainGoesOut(r: R.ReceiverState)
    requires !r.auto && !r.creditor.draining && r.end.life == OPEN_LINK
    ensures var s := R.Step(R.Step(r, R.UserDrain), R.Top(Passed));
            && PutsOut(r.end, s.end, true, (x: LinkOut) => IsFlow(x, r.end.handle, r.counters.count, 0, true))
            && s.counters == r.counters && s.creditor.draining
  {
    hide R.Prepare;
    var t := R.Step(r, R.UserDrain);
    assert t == r.(creditor := R.Creditor(true, r.creditor.creditsToAdd, true));
    ReceiverPasses(t, Passed);
    DrainKept(t);
  }

  lemma {:induction false} DrainKept(r: R.ReceiverState)
    requires r.creditor.pendingDrain && r.creditor.draining && !r.auto && r.end.life == OPEN_LINK
    ensures R.Step(r, R.Top(Passed)).creditor.draining
  {
  }

  // ---- receivers that settle second --------------------------------------------------

  /**
   The sender's answer, handed to the session: every delivery in the range that still waits is
   completed with the peer's state, and no other.
   */
  lemma {:induction false} ConfirmationJoins(s: SenderState, st: S.Mux, d: Disposition)
    requires SenderEnabled(s, DispositionIn(d, Passed)) && !d.settled
    requires SessionRuns.Sound(st.ledger) && !st.life.exited && !st.life.panicked && !st.life.closing
    requires Settlement.Upto(d) < MOD32 - 1
    ensures var f := SenderStep(s, DispositionIn(d, Passed)).end.out[|s.end.out|];
            && IsConfirmation(f, d) && S.Enabled(st, S.TxDisposition(f.disposition))
            && Settlement.ClosedExactly(st.ledger, S.Step(st, S.TxDisposition(f.disposition)).ledger,
                                        Settlement.Named(st.ledger.settlements, d.first, Settlement.Upto(d)),
                                        S.ByConfirmation(f.disposition))
  {
    hide Settlement.ClosedExactly, S.Step, Settlement.Named;
    SenderConfirms(s, d, Passed);
    var c := SenderStep(s, DispositionIn(d, Passed)).end.out[|s.end.out|].disposition;
    assert Settlement.Upto(c) == Settlement.Upto(d);
    NotPanicked(st.ledger);
    Settlement.ConfirmationCompletes(st, c);
  }

  lemma {:induction false} NotPanicked(g: S.Ledger)
    requires SessionRuns.Sound(g)
    ensures !g.panicked
  {
  }

  /**
   Receiver-settle-mode second, from end to end: the peer's unsettled disposition reaches the link of
   the delivery, the sender confirms it, and the confirmation completes the delivery with its state.
   */
  lemma {:induction false} SecondModeCompletes(st: S.Mux, s: SenderState, d: Disposition, id: uint32, c: nat)
    requires SessionRuns.Sound(st.ledger) && S.Enabled(st, S.RxDisposition(d)) && Settlement.Waits(st, id, c)
    requires d.role && !d.settled && d.first <= id <= Settlement.Upto(d)
    requires SenderEnabled(s, DispositionIn(d, Passed)) && !st.life.closing
    requires forall i | i in Settlement.Named(st.tables.localHandles, d.first, Settlement.Upto(d)) ::
               st.tables.localHandles[i] in st.tables.links
    ensures var t := S.Step(st, S.RxDisposition(d));
            && (exists k :: |st.forwarded| <= k < |t.forwarded|
                  && t.forwarded[k] == S.Forward(st.tables.links[st.tables.localHandles[id]], S.RxDisposition(d)))
            && var f := SenderStep(s, DispositionIn(d, Passed)).end.out[|s.end.out|];
               && IsConfirmation(f, d) && S.Enabled(t, S.TxDisposition(f.disposition))
               && var g := S.Step(t, S.TxDisposition(f.disposition)).ledger;
                  id !in g.settlements && c in g.channels && g.channels[c] == S.Channel(Some(d.state), true)
  {
    hide S.Step, SessionRuns.Sound, Settlement.ClosedExactly, S.CloseWithError;
    var t := S.Step(st, S.RxDisposition(d));
    Settlement.DispositionCompletes(st, d);
    assert id in Settlement.Reachable(st.tables, d, d.first);
    var k :| |st.forwarded| <= k < |t.forwarded| && Settlement.IsFor(st.tables, d, id, t.forwarded[k]);
    assert Settlement.Named(st.tables.localHandles, d.first, Settlement.Upto(d)) == Settlement.Reachable(st.tables, d, d.first);
    SenderConfirms(s, d, Passed);
    var f := SenderStep(s, DispositionIn(d, Passed)).end.out[|s.end.out|];
    NotPanicked(t.ledger);
    assert S.Enabled(t, S.TxDisposition(f.disposition));
    Settlement.ConfirmedThen(t, f.disposition, id);
  }

  // ---- over whole runs ---------------------------------------------------------------

  function Dispositions(out: seq<LinkOut>): (ds: seq<Disposition>) {
    if out == [] then []
    else
      var f := out[|out| - 1];
      Dispositions(out[..|out| - 1]) + if f.OutDisposition? then [f.disposition] else []
  }

  function Transfers(out: seq<LinkOut>): (envs: seq<Delivery.Envelope>) {
    if out == [] then []
    else
      var f := out[|out| - 1];
      Transfers(out[..|out| - 1]) + if f.OutTransfer? then [f.env] else []
  }

  lemma {:induction false} OneMoreOut(out: seq<LinkOut>, f: LinkOut)
    ensures Dispositions(out + [f]) == Dispositions(out) + if f.OutDisposition? then [f.disposition] else []
    ensures Transfers(out + [f]) == Transfers(out) + if f.OutTransfer? then [f.env] else []
  {
    assert (out + [f])[..|out|] == out;
  }

  /** The dispositions handed to an open receiver's mux. */
  function Disposed(es: seq<R.ReceiverEvent>): (ds: seq<Disposition>) {
    if es == [] then []
    else (if es[0].DispositionOut? && es[0].passed then [es[0].disposition] else []) + Disposed(es[1..])
  }

  lemma {:induction false} PassAddsFlow(r: R.ReceiverState, path: Path)
    ensures var s := R.Step(r, R.Top(path));
            s.end.out == r.end.out || exists f: Flow :: s.end.out == r.end.out + [OutFlow(f)]
  {
    var s := R.Step(r, R.Top(path));
    if s.end.out != r.end.out {
      var t := R.Reclaim(r);
      var b := R.FlowBits(t.creditor, t.counters.credit);
      var f := CreditFlow(r.end.handle, Counters(r.counters.count, b.credits)).(drain := b.drain);
      assert s.end.out == r.end.out + [OutFlow(f)];
    }
  }

  lemma {:induction false} OneFrame(r: R.ReceiverState, e: R.ReceiverEvent)
    requires !e.Top?
    ensures var s := R.Step(r, e);
            if s.end.out == r.end.out then !(e.DispositionOut? && e.passed)
            else && |s.end.out| == |r.end.out| + 1 && s.end.out == r.end.out + [s.end.out[|r.end.out|]]
                 && (if e.DispositionOut? then e.passed && s.end.out[|r.end.out|] == OutDisposition(e.disposition)
                     else !s.end.out[|r.end.out|].OutDisposition?)
  {
    hide R.Prepare, Add32, Sub32;
  }

  lemma {:induction false} DisposedStep(r: R.ReceiverState, e: R.ReceiverEvent)
    ensures Dispositions(R.Step(r, e).end.out) == Dispositions(r.end.out) + Disposed([e])
  {
    hide Dispositions;
    assert [e][1..] == [];
    var s := R.Step(r, e);
    if e.Top? {
      hide R.Step;
      PassAddsFlow(r, e.path);
      if s.end.out != r.end.out {
        var f: Flow :| s.end.out == r.end.out + [OutFlow(f)];
        OneMoreOut(r.end.out, OutFlow(f));
      }
    } else {
      OneFrame(r, e);
      if s.end.out != r.end.out { OneMoreOut(r.end.out, s.end.out[|r.end.out|]); }
    }
  }

  /** The dispositions a receiver puts out are exactly those handed to it, in order. */
  lemma {:induction false} DispositionsGoOut(r: R.ReceiverState, es: seq<R.ReceiverEvent>)
    requires R.ValidRun(r, es)
    ensures Dispositions(R.Run(r, es).end.out) == Dispositions(r.end.out) + Disposed(es)
    decreases |es|
  {
    hide Dispositions, R.Step, R.Enabled;
    if es != [] {
      DisposedStep(r, es[0]);
      assert [es[0]][1..] == [];
      DispositionsGoOut(R.Step(r, es[0]), es[1..]);
    }
  }

  /** The confirmations a sender owes for the dispositions it was given. */
  function Confirmed(es: seq<SenderEvent>): (ds: seq<Disposition>) {
    if es == [] then []
    else
      var e := es[0];
      (if e.DispositionIn? && !e.disposition.settled && e.path.Passed?
       then [Disposition(false, e.disposition.first, e.disposition.last, true, e.disposition.state, false)] else [])
      + Confirmed(es[1..])
  }

  function Handed(es: seq<SenderEvent>): (envs: seq<Delivery.Envelope>) {
    if es == [] then [] else (if es[0].TransferOut? && es[0].path.Passed? then [es[0].env] else []) + Handed(es[1..])
  }

  lemma {:induction false} SentStep(s: SenderState, e: SenderEvent)
    ensures Dispositions(SenderStep(s, e).end.out) == Dispositions(s.end.out) + Confirmed([e])
    ensures Transfers(SenderStep(s, e).end.out) == Transfers(s.end.out) + Handed([e])
  {
    hide Dispositions, Transfers, FlowFormula, AfterTransfer;
    assert [e][1..] == [];
    var r := SenderStep(s, e);
    if r.end.out != s.end.out {
      var f := r.end.out[|s.end.out|];
      assert r.end.out == s.end.out + [f];
      assert f.OutTransfer? <==> e.TransferOut?;
      assert f.OutDisposition? <==> e.DispositionIn?;
      OneMoreOut(s.end.out, f);
    }
  }

  /** A sender puts out exactly the transfers it takes and a confirmation for each unsettled disposition, in order. */
  lemma {:induction false} SenderPutsOut(s: SenderState, es: seq<SenderEvent>)
    requires SenderValid(s, es)
    ensures Dispositions(SenderRun(s, es).end.out) == Dispositions(s.end.out) + Confirmed(es)
    ensures Transfers(SenderRun(s, es).end.out) == Transfers(s.end.out) + Handed(es)
    decreases |es|
  {
    hide Dispositions, Transfers, SenderStep, SenderEnabled;
    if es != [] {
      SentStep(s, es[0]);
      assert [es[0]][1..] == [];
      SenderPutsOut(SenderStep(s, es[0]), es[1..]);
    }
  }
}
