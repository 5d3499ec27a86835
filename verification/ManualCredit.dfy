/** Manual credit: where every credit accepted from the user ends up. */
module ManualCredit {
  import opened Words
  import opened Values
  import opened Frames
  import opened Links
  import opened Receiving

  /**
   A receiver on manual credit with its books: credit accepted, added by flows, discarded by
   drains, lost when a sum wraps to nothing, and untold when the link or the session was gone
   before the flow was taken; drains accepted and drain flows sent.
   */
  datatype Books = Books(r: ReceiverState, accepted: nat, added: nat, discarded: nat, lost: nat,
                         untold: nat, drains: nat, drainFlows: nat)

  datatype Event = Issue(credits: uint32) | Drain | Arrive | Reply | Mux(path: Path)

  const DRAIN_REPLY: Flow := Flow(None, 0, 0, 0, None, None, None, None, true, false, Null)

  /** The event as the receiver's mux has it. */
  function Inner(e: Event): (x: ReceiverEvent) {
    match e
    case Issue(credits) => UserCredit(credits)
    case Drain => UserDrain
    case Arrive => TransferIn(true)
    case Reply => ReceiverEvent.FlowIn(DRAIN_REPLY, Passed)
    case Mux(path) => Top(path)
  }

  function Step(b: Books, e: Event): (c: Books) {
    var k, credit := b.r.creditor, b.r.counters.credit;
    var c := b.(r := Receiving.Step(b.r, Inner(e)));
    match e
    case Issue(credits) => if k.draining then c else c.(accepted := b.accepted + credits)
    case Drain => if k.draining then c else c.(drains := b.drains + 1)
    case Mux(path) =>
      if k.pendingDrain
      then c.(discarded := b.discarded + k.creditsToAdd,
              drainFlows := if path.Passed? then b.drainFlows + 1 else b.drainFlows)
      else if FlowBits(k, credit).credits == 0 then c.(lost := b.lost + k.creditsToAdd)
      else if path.Passed? then c.(added := b.added + k.creditsToAdd)
      else c.(untold := b.untold + k.creditsToAdd)
    case _ => c
  }

  predicate Enabled(b: Books, e: Event) {
    !b.r.auto && b.r.end.life.doneErr.None? && !b.r.end.life.exited
  }

  /** Credit accepted that is no longer pending. */
  function Gone(b: Books): (n: nat) {
    b.added + b.discarded + b.lost + b.untold
  }

  function Run(b: Books, es: seq<Event>): (c: Books)
    decreases |es|
  {
    if es == [] then b else Run(Step(b, es[0]), es[1..])
  }

  predicate ValidRun(b: Books, es: seq<Event>)
    decreases |es|
  {
    es == [] || (Enabled(b, es[0]) && ValidRun(Step(b, es[0]), es[1..]))
  }

  /** Every credit accepted is added, pending, discarded, lost or untold; no more drain flows than drains. */
  predicate Balanced(b: Books) {
    && b.r.creditor.creditsToAdd == Wrap(b.accepted - Gone(b))
    && b.drainFlows + (if b.r.creditor.pendingDrain then 1 else 0) <= b.drains
  }

  lemma {:induction false} IssueBalance(b: Books, credits: uint32)
    requires Balanced(b)
    ensures Add32(b.r.creditor.creditsToAdd, credits) == Wrap(b.accepted + credits - Gone(b))
  {
    hide Wrap, Add32, Sub32;
    var n := b.accepted - Gone(b);
    WrapAdd(n, credits);
    NoWrap(credits, credits);
    assert n + credits == b.accepted + credits - Gone(b);
  }

  /** Taking all that is pending off the balance leaves nothing. */
  lemma {:induction false} TakePending(n: int)
    ensures Wrap(n - Wrap(n)) == 0
  {
    WrapAdd(n, Wrap(n));
    NoWrap(Wrap(n), Wrap(n));
  }

  lemma {:induction false} BalancedStep(b: Books, e: Event)
    requires Balanced(b) && Enabled(b, e)
    ensures Balanced(Step(b, e))
  {
    hide Wrap, Add32, Sub32, Links.Reply;
    match e {
      case Issue(credits) => IssueBalance(b, credits);
      case Mux(path) =>
        var n := b.accepted - Gone(b);
        TakePending(n);
        PassedFlow(b.r, path);
        assert n - Wrap(n) == Step(b, e).accepted - Gone(Step(b, e));
      case _ =>
    }
  }

  /** What a manual receiver's pass does to its creditor. */
  lemma {:induction false} PassedFlow(r: ReceiverState, path: Path)
    requires !r.auto && r.end.life.doneErr.None? && !r.end.life.exited
    ensures var s := Receiving.Step(r, Top(path));
            !s.auto && s.creditor == Creditor(false, 0, r.creditor.draining && !s.end.life.exited)
  {
    hide Add32;
  }

  /** The ledger balances in every run, modulo 2^32. */
  lemma {:induction false} BalancedRun(b: Books, es: seq<Event>)
    requires ValidRun(b, es) && Balanced(b)
    ensures Balanced(Run(b, es))
    decreases |es|
  {
    hide Step, Enabled, Balanced;
    if es != [] {
      BalancedStep(b, es[0]);
      BalancedRun(Step(b, es[0]), es[1..]);
    }
  }

  // ---- without wrap-around -----------------------------------------------------------

  /** The user never has 2^32 credits pending or outstanding at once. */
  predicate Modest(b: Books, e: Event) {
    b.r.creditor.creditsToAdd + (if e.Issue? then e.credits else 0) + b.r.counters.credit < MOD32
  }

  ghost predicate AllModest(b: Books, es: seq<Event>)
    decreases |es|
  {
    es == [] || (Modest(b, es[0]) && AllModest(Step(b, es[0]), es[1..]))
  }

  predicate Exact(b: Books) {
    b.lost == 0 && b.accepted == b.added + b.r.creditor.creditsToAdd + b.discarded + b.untold
  }

  lemma {:induction false} ExactStep(b: Books, e: Event)
    requires Exact(b) && Enabled(b, e) && Modest(b, e)
    ensures Exact(Step(b, e))
  {
    hide Links.Reply;
    match e {
      case Mux(path) =>
        PassedFlow(b.r, path);
        NoWrap(b.r.creditor.creditsToAdd, b.r.counters.credit);
      case Issue(credits) => NoWrap(b.r.creditor.creditsToAdd, credits);
      case _ =>
    }
  }

  /** Then nothing is lost and the ledger balances exactly. */
  lemma {:induction false} ExactRun(b: Books, es: seq<Event>)
    requires ValidRun(b, es) && Exact(b) && AllModest(b, es)
    ensures Exact(Run(b, es))
    decreases |es|
  {
    hide Step, Enabled, Exact, Modest;
    if es != [] {
      ExactStep(b, es[0]);
      ExactRun(Step(b, es[0]), es[1..]);
    }
  }

  /** Credit is lost in a pass exactly when it would make the receiver's credit 2^32. */
  lemma {:induction false} LostExactly(b: Books, path: Path)
    requires Enabled(b, Mux(path))
    ensures Step(b, Mux(path)).lost > b.lost <==>
            !b.r.creditor.pendingDrain && b.r.creditor.creditsToAdd + b.r.counters.credit == MOD32
  {
  }

  // ---- drains ------------------------------------------------------------------------

  /** From a drain accepted until the peer's reply no credit is accepted. */
  lemma {:induction false} NothingAcceptedWhileDraining(b: Books, es: seq<Event>)
    requires ValidRun(b, es) && b.r.creditor.draining && forall k | 0 <= k < |es| :: !es[k].Reply?
    ensures Run(b, es).accepted == b.accepted && Run(b, es).drains == b.drains
    ensures Run(b, es).r.creditor.draining || Run(b, es).r.end.life.exited
    decreases |es|
  {
    hide Step;
    if es != [] {
      DrainingStep(b, es[0]);
      if Step(b, es[0]).r.creditor.draining { NothingAcceptedWhileDraining(Step(b, es[0]), es[1..]); }
    }
  }

  lemma {:induction false} DrainingStep(b: Books, e: Event)
    requires Enabled(b, e) && b.r.creditor.draining && !e.Reply?
    ensures var c := Step(b, e);
            && c.accepted == b.accepted && c.drains == b.drains
            && (c.r.creditor.draining || c.r.end.life.exited)
  {
    if e.Mux? { PassedFlow(b.r, e.path); }
  }

  /** The reply ends the drain and leaves no credit; the drain itself was announced with none to add. */
  lemma {:induction false} DrainReplied(b: Books)
    requires Enabled(b, Reply)
    ensures var c := Step(b, Reply);
            c.r.counters.credit == 0 && !c.r.creditor.draining && c.accepted == b.accepted
  {
  }

  /** An accepted drain is sent by the next pass, once, with zero credit and the drain flag, if the session takes it. */
  lemma {:induction false} DrainSent(b: Books, path: Path)
    requires Enabled(b, Mux(path)) && b.r.creditor.pendingDrain
    ensures var c := Step(b, Mux(path));
            var flow := OutFlow(CreditFlow(b.r.end.handle, Counters(b.r.counters.count, 0)).(drain := true));
            && !c.r.creditor.pendingDrain && c.r.counters == b.r.counters
            && c.r.end.out == b.r.end.out + if path.Passed? then [flow] else []
  {
  }

  function Opened(handle: uint32, count: uint32): (b: Books) {
    Books(ReceiverState(false, Counters(count, 0), 0, IDLE_CREDITOR, LinkEnd(handle, OPEN_LINK, [])), 0, 0, 0, 0, 0, 0, 0)
  }

  lemma {:induction false} EveryRun(handle: uint32, count: uint32, es: seq<Event>)
    requires ValidRun(Opened(handle, count), es)
    ensures Balanced(Run(Opened(handle, count), es))
    ensures AllModest(Opened(handle, count), es) ==> Exact(Run(Opened(handle, count), es))
  {
    BalancedRun(Opened(handle, count), es);
    if AllModest(Opened(handle, count), es) { ExactRun(Opened(handle, count), es); }
  }
}
