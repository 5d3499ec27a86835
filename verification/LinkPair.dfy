/**
 The two muxes joined: every run of a sender's mux and a receiver's mux, over the flows and
 transfers they hand each other, is a run of the counters in LinkCredit, up to a drain that comes
 too late; and that is the sender's credit then.
 */
module LinkPair {
  import opened Words
  import opened Values
  import opened Frames
  import opened Links
  import opened Receiving
  import AutoCredit
  import LinkCredit
  import Delivery
  import Messages

  /** On its way to the receiver. */
  datatype Item = Data(more: bool) | FlowItem(flow: Flow)

  /**
   staged and rollbacks as in LinkCredit; grants are the flows on their way to the sender, held the
   messages the receiver has got and not settled.
   */
  datatype Pair = Pair(snd: SenderState, rcv: ReceiverState, staged: Option<bool>, rollbacks: nat, wire: seq<Item>,
                       grants: seq<Flow>, held: nat)

  datatype Event =
    | AddCredit(credits: uint32)            // IssueCredit, on a receiver with manual credit
    | Drain                                 // DrainCredit, on a receiver with manual credit
    | Settle(count: uint32)                 // messages settled
    | RcvPass                               // the receiver's mux passes down to its select
    | AskSender                             // a flow of the receiver that asks for an answer
    | AskReceiver                           // a flow of the sender that does
    | TakeGrant
    | SendFrame(env: Delivery.Envelope)
    | Write
    | Cancel
    | RollBack
    | TakeFrame

  // ---- the composition ---------------------------------------------------------------

  /** The flow a step of a mux has put out. */
  function NewFlow(before: LinkEnd, after: LinkEnd): (fs: seq<Flow>) {
    var n := |before.out|;
    if n < |after.out| && after.out[n].OutFlow? then [after.out[n].flow] else []
  }

  function Items(fs: seq<Flow>): (r: seq<Item>) {
    if fs == [] then [] else [FlowItem(fs[0])]
  }

  function RcvStep(p: Pair, e: ReceiverEvent): (q: Pair) {
    var r := Receiving.Step(p.rcv, e);
    p.(rcv := r, grants := p.grants + NewFlow(p.rcv.end, r.end))
  }

  function SndStep(p: Pair, e: SenderEvent): (q: Pair) {
    var s := SenderStep(p.snd, e);
    p.(snd := s, wire := p.wire + Items(NewFlow(p.snd.end, s.end)))
  }

  /** What the receiver's pass has to add; the sum with its credit fits 32 bits. */
  predicate Modest(r: ReceiverState) {
    var s := Reclaim(r);
    s.creditor.creditsToAdd + s.counters.credit < MOD32
  }

  /** Runs end before a drain that does not find the sender at the count it states. */
  predicate Enabled(p: Pair, e: Event) {
    match e
    case Settle(count) => count <= p.held
    case RcvPass => p.rcv.auto || p.rcv.creditor.pendingDrain || Modest(p.rcv)
    case TakeGrant =>
      p.grants != [] && (p.grants[0].drain ==> p.grants[0].deliveryCount == Some(p.snd.counters.count))
    case SendFrame(env) => SenderEnabled(p.snd, TransferOut(env, Passed)) && p.staged.None? && p.rollbacks == 0
    case Write => p.staged.Some?
    case Cancel => p.staged.Some?
    case RollBack => p.rollbacks > 0
    case TakeFrame => p.wire != []
    case _ => true
  }

  function Step(p: Pair, e: Event): (q: Pair)
    requires Enabled(p, e)
  {
    match e
    case AddCredit(credits) => RcvStep(p, UserCredit(credits))
    case Drain => RcvStep(p, UserDrain)
    case Settle(count) => RcvStep(p, SettledIn(count)).(held := p.held - count)
    case RcvPass => RcvStep(p, Top(Passed))
    case AskSender => p.(grants := p.grants + [CreditFlow(p.rcv.end.handle, p.rcv.counters).(echo := true)])
    case AskReceiver => p.(wire := p.wire + [FlowItem(CreditFlow(p.snd.end.handle, p.snd.counters).(echo := true))])
    case TakeGrant => SndStep(p.(grants := p.grants[1..]), SenderEvent.FlowIn(p.grants[0], Passed))
    case SendFrame(env) => SndStep(p, TransferOut(env, Passed)).(staged := Some(env.frame.more))
    case Write => p.(staged := None, wire := p.wire + [Data(p.staged.value)])
    case Cancel => p.(staged := None, rollbacks := if p.staged.value then p.rollbacks else p.rollbacks + 1)
    case RollBack => SndStep(p.(rollbacks := p.rollbacks - 1), Rollback)
    case TakeFrame =>
      RcvStep(p.(wire := p.wire[1..], held := if p.wire[0] == Data(false) then p.held + 1 else p.held),
              match p.wire[0]
              case Data(more) => TransferIn(!more)
              case FlowItem(f) => ReceiverEvent.FlowIn(f, Passed))
  }

  function Run(p: Pair, es: seq<Event>): (q: Pair)
    requires ValidRun(p, es)
    decreases |es|
  {
    if es == [] then p else Run(Step(p, es[0]), es[1..])
  }

  predicate ValidRun(p: Pair, es: seq<Event>)
    decreases |es|
  {
    es == [] || (Enabled(p, es[0]) && ValidRun(Step(p, es[0]), es[1..]))
  }

  /** Both ends up; the flows in flight are those the muxes write. */
  predicate Live(p: Pair) {
    && LiveSender(p.snd) && LiveReceiver(p.rcv)
    && (forall k | 0 <= k < |p.grants| :: OwnFlow(p.grants[k]))
    && (forall k | 0 <= k < |p.wire| :: p.wire[k].FlowItem? ==> OwnFlow(p.wire[k].flow) && !p.wire[k].flow.drain)
  }

  predicate LiveSender(s: SenderState) {
    s.end.life == OPEN_LINK && !s.panicked
  }

  predicate LiveReceiver(r: ReceiverState) {
    && r.end.life == OPEN_LINK
    && (r.creditor.draining ==> !r.auto) && (r.creditor.pendingDrain ==> r.creditor.draining)
    && (r.creditor.draining && !r.creditor.pendingDrain ==> r.creditor.creditsToAdd == 0)
  }

  predicate OwnFlow(f: Flow) {
    f.deliveryCount.Some? && f.linkCredit.Some? && (f.drain ==> f.linkCredit == Some(0) && !f.echo)
  }

  /** A receiver on automatic credit has no more than 32 bits to give: what is out comes back once. */
  predicate Budget(p: Pair) {
    p.rcv.auto ==>
      p.rcv.counters.credit + p.rcv.settlementCount + p.rcv.creditor.creditsToAdd + p.held < MOD32
  }

  function DrainFlow(r: ReceiverState): (f: Flow) {
    CreditFlow(r.end.handle, Counters(r.counters.count, 0)).(drain := true)
  }

  // ---- the projection ----------------------------------------------------------------

  function ToGrant(f: Flow): (g: LinkCredit.Grant32) {
    LinkCredit.Grant32(if f.deliveryCount.Some? then f.deliveryCount.value else 0,
                       if f.linkCredit.Some? then f.linkCredit.value else 0, f.echo)
  }

  /** Drains grant nothing. */
  function ToGrants(fs: seq<Flow>): (gs: seq<LinkCredit.Grant32>) {
    if fs == [] then [] else (if fs[0].drain then [] else [ToGrant(fs[0])]) + ToGrants(fs[1..])
  }

  function ToFrame(i: Item): (w: LinkCredit.Wire) {
    match i
    case Data(more) => LinkCredit.Frame(more)
    case FlowItem(f) => LinkCredit.Answer(f.echo)
  }

  function ToWire(ws: seq<Item>): (r: seq<LinkCredit.Wire>)
    ensures |r| == |ws| && forall k | 0 <= k < |ws| :: r[k] == ToFrame(ws[k])
  {
    if ws == [] then [] else [ToFrame(ws[0])] + ToWire(ws[1..])
  }

  function Project(p: Pair): (j: LinkCredit.Joint) {
    LinkCredit.Joint(p.snd.counters, p.staged, p.rollbacks, ToWire(p.wire), ToGrants(p.grants), p.rcv.counters)
  }

  /** A step as the counters see it, or nothing they see. */
  function Seen(p: Pair, e: Event): (x: Option<LinkCredit.Event>) {
    match e
    case AddCredit(_) => None
    case Drain => None
    case Settle(_) => None
    case RcvPass =>
      var n := Reclaim(p.rcv).creditor.creditsToAdd;
      if n == 0 || p.rcv.creditor.pendingDrain then None else Some(LinkCredit.Issue(n))
    case AskSender => Some(LinkCredit.AskSender)
    case AskReceiver => Some(LinkCredit.AskReceiver)
    case TakeGrant => Some(if p.grants != [] && p.grants[0].drain then LinkCredit.Stop else LinkCredit.TakeGrant)
    case SendFrame(env) => Some(LinkCredit.SendFrame(env.frame.more))
    case Write => Some(LinkCredit.Write)
    case Cancel => Some(LinkCredit.Cancel)
    case RollBack => Some(LinkCredit.RollBack)
    case TakeFrame => Some(LinkCredit.TakeFrame)
  }

  // ---- one mux at a time -------------------------------------------------------------

  /** A pass of the receiver's mux issues what is pending, and the flow it sends grants the new counters. */
  lemma {:induction false} PassIssues(r: ReceiverState)
    requires LiveReceiver(r) && !r.creditor.pendingDrain
    ensures var s, n := Receiving.Step(r, Top(Passed)), Reclaim(r).creditor.creditsToAdd;
            && LiveReceiver(s) && s.counters == LinkCredit.Issued(r.counters, n)
            && s.end.out == r.end.out + if s.counters == r.counters then []
                                        else [OutFlow(CreditFlow(r.end.handle, s.counters))]
  {
  }

  /** A pass with a drain pending sends its flow and keeps the counters; what was to be issued is dropped. */
  lemma {:induction false} PassDrains(r: ReceiverState)
    requires LiveReceiver(r) && r.creditor.pendingDrain
    ensures var s := Receiving.Step(r, Top(Passed));
            && LiveReceiver(s) && s.counters == r.counters && s.creditor == Creditor(false, 0, true)
            && s.auto == r.auto && s.end.out == r.end.out + [OutFlow(DrainFlow(r))]
  {
  }

  /** An answer of the receiver grants its counters. */
  lemma {:induction false} EchoAnswers(r: ReceiverState, f: Flow)
    requires LiveReceiver(r) && OwnFlow(f) && !f.drain
    ensures Receiving.Step(r, ReceiverEvent.FlowIn(f, Passed))
         == if f.echo then r.(end := r.end.(out := r.end.out + [OutFlow(CreditFlow(r.end.handle, r.counters))])) else r
  {
  }

  lemma {:induction false} TransferCounts(r: ReceiverState, last: bool)
    requires LiveReceiver(r)
    ensures Receiving.Step(r, TransferIn(last)) == if last then r.(counters := LinkCredit.Received(r.counters)) else r
  {
    hide Add32, Sub32;
  }

  /** The sender's mux takes a grant by the formula and answers when asked. */
  lemma {:induction false} GrantTaken(s: SenderState, f: Flow)
    requires LiveSender(s) && OwnFlow(f)
    ensures var c := FlowFormula(s.counters, f.linkCredit.value, f.deliveryCount);
            SenderStep(s, SenderEvent.FlowIn(f, Passed)) ==
            s.(counters := c,
               end := if f.echo then s.end.(out := s.end.out + [OutFlow(CreditFlow(s.end.handle, c))]) else s.end)
  {
    hide FlowFormula;
  }

  /** Reassembly and the mux go together: same counters, same state of the detach. */
  predicate Together(x: Delivery.Rx, r: ReceiverState) {
    && r.counters == Counters(x.deliveryCount, x.linkCredit)
    && r.end.life.closing == x.closing && r.end.life.doneErr.Some? == x.doneErr.Some?
  }

  /** The event muxReceive is for the mux: a message completed, bytes taken in, or a refusal. */
  function AsEvent(x: Delivery.Rx, fr: Transfer, passed: bool): (e: ReceiverEvent) {
    var y := Delivery.Receive(x, fr);
    if y.closing && !x.closing then BadTransferIn(passed) else TransferIn(|y.queue| > |x.queue|)
  }

  /** Any transfer moves both alike, unless the process panics in it. */
  lemma {:induction false} StayTogether(x: Delivery.Rx, r: ReceiverState, fr: Transfer, passed: bool)
    requires Together(x, r) && !x.panicked && !r.end.life.exited
    ensures var y := Delivery.Receive(x, fr);
            y.panicked || Together(y, Receiving.Step(r, AsEvent(x, fr, passed)))
  {
    hide Add32, Sub32, Delivery.Record, Delivery.Check;
    LinkCredit.CountersAgree(x, fr);
    Delivery.ReceiveClosesOnce(x, fr);
    RefusedCountsNothing(x, fr);
  }

  lemma {:induction false} RefusedCountsNothing(x: Delivery.Rx, fr: Transfer)
    ensures var y := Delivery.Receive(x, fr); y.closing && !x.closing ==> y.queue == x.queue && y.doneErr.Some?
    ensures var y := Delivery.Receive(x, fr); y.closing == x.closing ==> y.doneErr == x.doneErr
  {
    hide Add32, Sub32, Delivery.Record, Delivery.Check, Messages.Unmarshal;
  }

  // ---- refinement --------------------------------------------------------------------

  lemma {:induction false} ToGrantsMore(fs: seq<Flow>, f: Flow)
    ensures ToGrants(fs + [f]) == ToGrants(fs) + (if f.drain then [] else [ToGrant(f)])
    ensures ToGrants(fs + []) == ToGrants(fs)
  {
    hide ToGrant;
    assert fs + [] == fs;
    if fs == [] {
      assert fs + [f] == [f] && [f][1..] == [];
    } else {
      assert (fs + [f])[1..] == fs[1..] + [f];
      ToGrantsMore(fs[1..], f);
    }
  }

  lemma {:induction false} ToGrantsFirst(fs: seq<Flow>)
    requires fs != []
    ensures ToGrants(fs) == (if fs[0].drain then [] else [ToGrant(fs[0])]) + ToGrants(fs[1..])
  {
  }

  lemma {:induction false} ToWireMore(ws: seq<Item>, w: Item)
    ensures ToWire(ws + [w]) == ToWire(ws) + [ToFrame(w)] && ToWire(ws + []) == ToWire(ws)
  {
    hide ToWire;
    assert ws + [] == ws;
  }

  /** What a step must do to the counters' view. */
  predicate Follows(p: Pair, e: Event)
    requires Enabled(p, e)
  {
    && Live(Step(p, e))
    && match Seen(p, e)
       case None => Project(Step(p, e)) == Project(p)
       case Some(x) => LinkCredit.Enabled(Project(p), x) && Project(Step(p, e)) == LinkCredit.Step(Project(p), x)
  }

  /** For automatic credit the sum fits because it was once all at the receiver. */
  lemma {:induction false} BudgetModest(p: Pair)
    requires p.rcv.auto && Budget(p)
    ensures Modest(p.rcv)
  {
    NoWrap(p.rcv.creditor.creditsToAdd, p.rcv.settlementCount);
  }

  lemma {:induction false} DrainFollows(p: Pair)
    requires Live(p) && p.rcv.creditor.pendingDrain
    ensures Follows(p, RcvPass)
  {
    hide Receiving.Step, Reclaim, ToGrants, ToWire;
    PassDrains(p.rcv);
    var s := Receiving.Step(p.rcv, Top(Passed));
    assert NewFlow(p.rcv.end, s.end) == [DrainFlow(p.rcv)];
    ToGrantsMore(p.grants, DrainFlow(p.rcv));
  }

  lemma {:induction false} PassFollows(p: Pair)
    requires Live(p) && !p.rcv.creditor.pendingDrain && Modest(p.rcv)
    ensures Follows(p, RcvPass)
  {
    hide Receiving.Step, Reclaim, ToGrants, ToWire, Add32, Wrap;
    PassIssues(p.rcv);
    var s, n := Receiving.Step(p.rcv, Top(Passed)), Reclaim(p.rcv).creditor.creditsToAdd;
    ReclaimKeepsCounters(p.rcv);
    if n > 0 {
      LinkCredit.IssuedIs(p.rcv.counters, n);
      ToGrantsMore(p.grants, CreditFlow(p.rcv.end.handle, s.counters));
      assert NewFlow(p.rcv.end, s.end) == [CreditFlow(p.rcv.end.handle, s.counters)];
    } else {
      assert p.grants + [] == p.grants;
    }
  }

  lemma {:induction false} ReclaimKeepsCounters(r: ReceiverState)
    ensures Reclaim(r).counters == r.counters
  {
  }

  lemma {:induction false} TakeGrantFollows(p: Pair)
    requires Live(p) && Enabled(p, TakeGrant)
    ensures Follows(p, TakeGrant)
  {
    hide SenderStep, ToGrants, ToWire, FlowFormula;
    var f := p.grants[0];
    GrantTaken(p.snd, f);
    if f.drain { DrainTaken(p.snd, f); }
    var s := SenderStep(p.snd, SenderEvent.FlowIn(f, Passed));
    ToWireMore(p.wire, FlowItem(CreditFlow(p.snd.end.handle, s.counters)));
    ToGrantsFirst(p.grants);
    assert f.echo ==> NewFlow(p.snd.end, s.end) == [CreditFlow(p.snd.end.handle, s.counters)];
  }

  lemma {:induction false} TakeFrameFollows(p: Pair)
    requires Live(p) && Enabled(p, TakeFrame)
    ensures Follows(p, TakeFrame)
  {
    hide Receiving.Step, ToGrants, ToWire, LinkCredit.Received;
    ToGrantsMore(p.grants, CreditFlow(p.rcv.end.handle, p.rcv.counters));
    assert ToWire(p.wire[1..]) == ToWire(p.wire)[1..];
    match p.wire[0] {
      case Data(more) => TransferCounts(p.rcv, !more);
      case FlowItem(f) => EchoAnswers(p.rcv, f);
    }
  }

  lemma {:induction false} SenderFollows(p: Pair, e: Event)
    requires Live(p) && Enabled(p, e) && (e.SendFrame? || e.RollBack?)
    ensures Follows(p, e)
  {
    hide ToGrants, ToWire, Add32, Sub32;
    assert p.wire + [] == p.wire;
  }

  lemma {:induction false} QuietFollows(p: Pair, e: Event)
    requires Live(p) && Enabled(p, e) && (e.AddCredit? || e.Drain? || e.Settle?)
    ensures Follows(p, e)
  {
    hide ToGrants, ToWire, Add32;
    assert p.grants + [] == p.grants;
  }

  lemma {:induction false} ChannelFollows(p: Pair, e: Event)
    requires Live(p) && Enabled(p, e) && (e.AskSender? || e.AskReceiver? || e.Write? || e.Cancel?)
    ensures Follows(p, e)
  {
    hide ToGrants, ToWire;
    match e {
      case AskSender => ToGrantsMore(p.grants, CreditFlow(p.rcv.end.handle, p.rcv.counters).(echo := true));
      case AskReceiver => ToWireMore(p.wire, FlowItem(CreditFlow(p.snd.end.handle, p.snd.counters).(echo := true)));
      case Write => ToWireMore(p.wire, Data(p.staged.value));
      case Cancel =>
    }
  }

  lemma {:induction false} StepFollows(p: Pair, e: Event)
    requires Live(p) && Budget(p) && Enabled(p, e)
    ensures Follows(p, e)
  {
    hide Follows, Live, Budget, Modest;
    match e {
      case RcvPass =>
        if p.rcv.creditor.pendingDrain {
          DrainFollows(p);
        } else {
          if p.rcv.auto { BudgetModest(p); }
          PassFollows(p);
        }
      case TakeGrant => TakeGrantFollows(p);
      case TakeFrame => TakeFrameFollows(p);
      case SendFrame(_) => SenderFollows(p, e);
      case RollBack => SenderFollows(p, e);
      case AddCredit(_) => QuietFollows(p, e);
      case Drain => QuietFollows(p, e);
      case Settle(_) => QuietFollows(p, e);
      case _ => ChannelFollows(p, e);
    }
  }

  /** The pair's counters are an unbounded view in order, wrapped. */
  ghost predicate Safe(p: Pair, i: LinkCredit.Ideal) {
    Live(p) && Budget(p) && LinkCredit.Inv(i) && LinkCredit.Wrapped(i) == Project(p)
  }

  /** The unbounded view after a step. */
  ghost function IdealAfter(p: Pair, i: LinkCredit.Ideal, e: Event): (k: LinkCredit.Ideal)
    requires Safe(p, i) && Enabled(p, e)
  {
    StepFollows(p, e);
    match Seen(p, e)
    case None => i
    case Some(x) => LinkCredit.InvStep(i, x); LinkCredit.IdealStep(i, x)
  }

  /** What a receiver on automatic credit has to give is never more than it started with. */
  lemma {:induction false} BudgetStep(p: Pair, i: LinkCredit.Ideal, e: Event)
    requires Safe(p, i) && Enabled(p, e)
    ensures Budget(Step(p, e))
  {
    hide Live, SenderStep, Receiving.Step, LinkCredit.Inv, LinkCredit.WrapGrants, ToGrants;
    if p.rcv.auto {
      match e {
        case AddCredit(credits) => AutoIgnores(p.rcv, credits);
        case Drain => AutoIgnores(p.rcv, 0);
        case Settle(count) => AutoCredit.SettledCounted(p.rcv, count);
        case RcvPass => AutoPass(p);
        case TakeFrame =>
          LinkCredit.NoUnderflow(i);
          AutoTakes(p);
        case _ =>
      }
    } else {
      AutoFixed(p, e);
    }
  }

  lemma {:induction false} AutoIgnores(r: ReceiverState, credits: uint32)
    requires r.auto
    ensures Receiving.Step(r, UserCredit(credits)) == r == Receiving.Step(r, UserDrain)
  {
  }

  lemma {:induction false} AutoFixed(p: Pair, e: Event)
    requires Enabled(p, e)
    ensures Step(p, e).rcv.auto == p.rcv.auto
  {
    hide SenderStep, Reply, DetachReceived, CloseWithError, Reclaim, NewFlow;
    ReclaimFixed(p.rcv);
  }

  lemma {:induction false} ReclaimFixed(r: ReceiverState)
    ensures Reclaim(r).auto == r.auto
  {
  }

  lemma {:induction false} AutoPass(p: Pair)
    requires Live(p) && Budget(p) && p.rcv.auto
    ensures Budget(Step(p, RcvPass))
  {
    hide Receiving.Step, NewFlow;
    AutoCredit.MuxPass(p.rcv, Passed);
  }

  lemma {:induction false} AutoTakes(p: Pair)
    requires Live(p) && Budget(p) && p.rcv.auto && p.wire != []
    requires p.wire[0] == Data(false) ==> p.rcv.counters.credit > 0
    ensures Budget(Step(p, TakeFrame))
  {
    hide Receiving.Step, NewFlow;
    match p.wire[0] {
      case Data(more) =>
        TransferCounts(p.rcv, !more);
        NoWrap(p.rcv.counters.credit, 1);
      case FlowItem(f) => EchoAnswers(p.rcv, f);
    }
  }

  lemma {:induction false} SafeStep(p: Pair, i: LinkCredit.Ideal, e: Event)
    requires Safe(p, i) && Enabled(p, e)
    ensures Safe(Step(p, e), IdealAfter(p, i, e))
  {
    BudgetStep(p, i, e);
    hide Live, Budget, Enabled, Step, Project, LinkCredit.Inv, LinkCredit.Wrapped, LinkCredit.Step, LinkCredit.IdealStep;
    StepFollows(p, e);
    match Seen(p, e) {
      case None =>
      case Some(x) =>
        LinkCredit.InvStep(i, x);
        LinkCredit.StepRefines(i, x);
    }
  }

  ghost function IdealRun(p: Pair, i: LinkCredit.Ideal, es: seq<Event>): (k: LinkCredit.Ideal)
    requires Safe(p, i) && ValidRun(p, es)
    decreases |es|
  {
    if es == [] then i
    else
      SafeStep(p, i, es[0]);
      IdealRun(Step(p, es[0]), IdealAfter(p, i, es[0]), es[1..])
  }

  /**
   Link-credit safety of the two muxes: in every run their counters, and those in the flows between
   them, are the wrapped image of unbounded counters whose limits stay in order.
   */
  lemma {:induction false} SafeRun(p: Pair, i: LinkCredit.Ideal, es: seq<Event>)
    requires Safe(p, i) && ValidRun(p, es)
    ensures Safe(Run(p, es), IdealRun(p, i, es))
    decreases |es|
  {
    hide Safe, Enabled, Step, IdealAfter;
    if es != [] {
      SafeStep(p, i, es[0]);
      SafeRun(Step(p, es[0]), IdealAfter(p, i, es[0]), es[1..]);
    }
  }

  /** After attach; a receiver on automatic credit has sent its first flow, one on manual credit none. */
  function Opened(snd: uint32, rcv: uint32, auto: bool, count: uint32, credit: uint32): (p: Pair) {
    var c := Counters(count, if auto then credit else 0);
    var r := ReceiverState(auto, c, 0, IDLE_CREDITOR, LinkEnd(rcv, OPEN_LINK, []));
    var s := if auto then SendFlow(r, Bits(false, credit), Passed) else r;
    Pair(SenderState(Counters(count, 0), LinkEnd(snd, OPEN_LINK, []), false), s, None, 0, [], NewFlow(r.end, s.end), 0)
  }

  function OpenedIdeal(auto: bool, count: uint32, credit: uint32): (i: LinkCredit.Ideal) {
    if auto then LinkCredit.AttachedIdeal(count, credit)
    else LinkCredit.Ideal(LinkCredit.End(count, 0), None, 0, [], [], LinkCredit.End(count, 0))
  }

  lemma {:induction false} OpenedSafe(snd: uint32, rcv: uint32, auto: bool, count: uint32, credit: uint32)
    ensures Safe(Opened(snd, rcv, auto, count, credit), OpenedIdeal(auto, count, credit))
  {
    NoWrap(count, 0);
    NoWrap(credit, 0);
    NoWrap(0, 0);
    var p, i := Opened(snd, rcv, auto, count, credit), OpenedIdeal(auto, count, credit);
    if auto {
      assert LinkCredit.Rising(LinkCredit.Limit(i.snd), i.grants, LinkCredit.Limit(i.rcv)) by {
        assert i.grants[1..] == [];
      }
      assert p.grants == [CreditFlow(rcv, Counters(count, credit))] && p.grants[1..] == [];
      ToGrantsFirst(p.grants);
      assert ToGrants([]) == [];
    }
  }

  /**
   From attach on: a transfer that completes a message always finds credit at the receiver, and the
   sender never holds more than the receiver has given.
   */
  lemma {:induction false} EveryRun(snd: uint32, rcv: uint32, auto: bool, count: uint32, credit: uint32, es: seq<Event>)
    requires ValidRun(Opened(snd, rcv, auto, count, credit), es)
    ensures var q := Run(Opened(snd, rcv, auto, count, credit), es);
            && Live(q) && q.snd.counters.credit <= q.rcv.counters.credit
            && (q.wire != [] && q.wire[0] == Data(false) ==> q.rcv.counters.credit > 0)
  {
    hide ValidRun, Run, Live, ToGrants, LinkCredit.Inv, LinkCredit.WrapGrants, Wrap;
    var p, i := Opened(snd, rcv, auto, count, credit), OpenedIdeal(auto, count, credit);
    OpenedSafe(snd, rcv, auto, count, credit);
    SafeRun(p, i, es);
    var k := IdealRun(p, i, es);
    LinkCredit.Bounds(k);
    LinkCredit.NoUnderflow(k);
  }

  // ---- drains ------------------------------------------------------------------------

  /**
   A drain's flow carries no credit, and the sender applies the formula to it without answering. Its
   credit ends exactly when the flow states the count the sender has reached; otherwise it wraps.
   */
  lemma {:induction false} DrainTaken(s: SenderState, f: Flow)
    requires LiveSender(s) && OwnFlow(f) && f.drain
    ensures var r, n := SenderStep(s, SenderEvent.FlowIn(f, Passed)), Sub32(s.counters.count, f.deliveryCount.value);
            && r == s.(counters := s.counters.(credit := if n == 0 then 0 else MOD32 - n))
            && (r.counters.credit == 0 <==> f.deliveryCount == Some(s.counters.count))
  {
  }

  /** Messages handed to the session in a run, and those taken back. */
  function Finals(es: seq<Event>): (n: nat) {
    if es == [] then 0 else (if es[0].SendFrame? && !es[0].env.frame.more then 1 else 0) + Finals(es[1..])
  }

  function Undone(es: seq<Event>): (n: nat) {
    if es == [] then 0 else (if es[0].RollBack? then 1 else 0) + Undone(es[1..])
  }

  function Takes(es: seq<Event>): (n: nat) {
    if es == [] then 0 else (if es[0].TakeGrant? then 1 else 0) + Takes(es[1..])
  }

  /** The drain stands behind left other flows; its count was c, and no credit has been given since. */
  ghost predicate Crossing(p: Pair, i: LinkCredit.Ideal, f: Flow, left: nat, c: int, limit: int) {
    && Safe(p, i) && left < |p.grants| && p.grants[left] == f
    && p.rcv.creditor == Creditor(false, 0, true)
    && c <= i.rcv.count && LinkCredit.Limit(i.rcv) == limit
  }

  lemma {:induction false} CrossingStep(p: Pair, i: LinkCredit.Ideal, f: Flow, left: nat, c: int, limit: int, e: Event)
    requires Crossing(p, i, f, left, c, limit) && Enabled(p, e) && (e.TakeGrant? ==> left > 0)
    ensures var q, k := Step(p, e), IdealAfter(p, i, e);
            && Crossing(q, k, f, if e.TakeGrant? then left - 1 else left, c, limit)
            && k.snd.count == i.snd.count + Finals([e]) - Undone([e])
  {
    SafeStep(p, i, e);
    hide Safe, Live, Budget, Enabled, SenderStep, Receiving.Step, NewFlow, LinkCredit.Inv;
    DrainStays(p, e);
    assert [e][1..] == [];
    IdealMoves(p, i, e);
  }

  lemma {:induction false} DrainStays(p: Pair, e: Event)
    requires Live(p) && Enabled(p, e) && p.rcv.creditor == Creditor(false, 0, true)
    ensures Step(p, e).rcv.creditor == p.rcv.creditor
    ensures e.RcvPass? ==> Seen(p, e).None?
  {
    hide SenderStep, NewFlow, OwnFlow;
    if e.TakeFrame? {
      match p.wire[0] {
        case Data(more) => TransferCounts(p.rcv, !more);
        case FlowItem(f) => EchoAnswers(p.rcv, f);
      }
    }
  }

  /** Without new credit the receiver's limit stands; the sender's count moves with its messages. */
  lemma {:induction false} IdealMoves(p: Pair, i: LinkCredit.Ideal, e: Event)
    requires Safe(p, i) && Enabled(p, e) && (e.RcvPass? ==> Seen(p, e).None?)
    ensures var k := IdealAfter(p, i, e);
            && k.snd.count == i.snd.count + (if e.SendFrame? && !e.env.frame.more then 1 else 0)
                              - (if e.RollBack? then 1 else 0)
            && i.rcv.count <= k.rcv.count && LinkCredit.Limit(k.rcv) == LinkCredit.Limit(i.rcv)
  {
    hide Live, Budget, Project, LinkCredit.Inv, LinkCredit.Wrapped, Reclaim, Follows;
    StepFollows(p, e);
  }

  lemma {:induction false} CrossingRun(p: Pair, i: LinkCredit.Ideal, f: Flow, left: nat, c: int, limit: int,
                                       es: seq<Event>)
    requires Crossing(p, i, f, left, c, limit) && ValidRun(p, es) && Takes(es) <= left
    ensures var k := IdealRun(p, i, es);
            && Crossing(Run(p, es), k, f, left - Takes(es), c, limit)
            && k.snd.count == i.snd.count + Finals(es) - Undone(es)
    decreases |es|
  {
    hide Safe, Enabled, Step, IdealAfter;
    if es != [] {
      CrossingStep(p, i, f, left, c, limit, es[0]);
      assert Finals([es[0]]) == Finals(es) - Finals(es[1..]) && Undone([es[0]]) == Undone(es) - Undone(es[1..]) by {
        assert [es[0]][1..] == [];
      }
      CrossingRun(Step(p, es[0]), IdealAfter(p, i, es[0]), f, if es[0].TakeGrant? then left - 1 else left, c, limit,
                  es[1..]);
    }
  }

  /**
   What a drain does, over any run from the pass that sends it to the moment the sender takes it: the
   sender is left without credit exactly when the messages on the way at the start and those sent
   since, less those taken back, come to none. Otherwise it is left with 2^32 less that many.
   */
  lemma {:induction false} DrainExact(p: Pair, i: LinkCredit.Ideal, es: seq<Event>)
    requires Safe(p, i) && p.rcv.creditor.pendingDrain
    requires ValidRun(Step(p, RcvPass), es) && Takes(es) == |p.grants|
    ensures var q, n := Run(Step(p, RcvPass), es), LinkCredit.Ahead(i) + Finals(es) - Undone(es);
            && LiveSender(q.snd) && q.grants != [] && q.grants[0] == DrainFlow(p.rcv) && 0 <= n < MOD32
            && SenderStep(q.snd, SenderEvent.FlowIn(q.grants[0], Passed))
               == q.snd.(counters := q.snd.counters.(credit := if n == 0 then 0 else MOD32 - n))
  {
    hide ValidRun, Run, SenderStep, Takes, Finals, Undone;
    DrainDeparts(p, i);
    var f, c, limit := DrainFlow(p.rcv), i.rcv.count, LinkCredit.Limit(i.rcv);
    CrossingRun(Step(p, RcvPass), i, f, |p.grants|, c, limit, es);
    var q, k := Run(Step(p, RcvPass), es), IdealRun(Step(p, RcvPass), i, es);
    CountsApart(q, k, f, c, limit);
    CountOf(p, i);
    DrainTaken(q.snd, f);
  }

  lemma {:induction false} DrainDeparts(p: Pair, i: LinkCredit.Ideal)
    requires Safe(p, i) && p.rcv.creditor.pendingDrain
    ensures Crossing(Step(p, RcvPass), i, DrainFlow(p.rcv), |p.grants|, i.rcv.count, LinkCredit.Limit(i.rcv))
  {
    SafeStep(p, i, RcvPass);
    hide Safe, Receiving.Step;
    PassDrains(p.rcv);
    var s := Receiving.Step(p.rcv, Top(Passed));
    assert NewFlow(p.rcv.end, s.end) == [DrainFlow(p.rcv)];
  }

  /** How far the sender has come since the count in the flow, within what had been granted. */
  lemma {:induction false} CountsApart(q: Pair, k: LinkCredit.Ideal, f: Flow, c: int, limit: int)
    requires Crossing(q, k, f, 0, c, limit) && limit - c < MOD32
    ensures 0 <= k.snd.count - c < MOD32
    ensures Sub32(q.snd.counters.count, Wrap(c)) == k.snd.count - c
  {
    hide Live, Budget, LinkCredit.Ahead, LinkCredit.Rising, ToGrants, LinkCredit.WrapGrants, ToWire, Wrap, Sub32;
    LinkCredit.Bounds(k);
    WrapAdd(k.snd.count, c);
    NoWrap(k.snd.count - c, 0);
  }

  lemma {:induction false} CountOf(p: Pair, i: LinkCredit.Ideal)
    requires Safe(p, i)
    ensures DrainFlow(p.rcv).deliveryCount == Some(Wrap(i.rcv.count))
    ensures LinkCredit.Limit(i.rcv) - i.rcv.count < MOD32 && i.snd.count == i.rcv.count + LinkCredit.Ahead(i)
  {
    hide Live, Budget, LinkCredit.Ahead, LinkCredit.Rising, ToGrants, LinkCredit.WrapGrants, ToWire, Wrap;
  }

  /**
   A run in which that many is one, although nothing is on the way when the drain is sent nor when it
   is taken: a message is sent and received in between. The sender ends with a credit of 2^32 - 1.
   */
  lemma {:induction false} DrainReached(snd: uint32, rcv: uint32, env: Delivery.Envelope)
    requires !env.frame.more
    ensures var es := [AddCredit(5), RcvPass, TakeGrant, Drain, RcvPass, SendFrame(env), Write, TakeFrame];
            var p := Opened(snd, rcv, false, 0, 0);
            && ValidRun(p, es)
            && var q := Run(p, es);
               && q.snd.counters.count == q.rcv.counters.count == 1 && q.wire == [] && q.staged.None? && q.rollbacks == 0
               && |q.grants| == 1 && q.grants[0].drain
               && SenderStep(q.snd, SenderEvent.FlowIn(q.grants[0], Passed)).counters.credit == MOD32 - 1
  {
    hide Run, ValidRun, Opened, Calm, SenderStep;
    var p := Opened(snd, rcv, false, 0, 0);
    var first, second, third := [AddCredit(5), RcvPass, TakeGrant], [Drain, RcvPass], [SendFrame(env), Write, TakeFrame];
    FiveGranted(snd, rcv);
    var q := Run(p, first);
    DrainLeaves(q, 0, 5);
    var r := Run(q, second);
    MessageCrosses(r, 0, 5, env);
    RunJoin(q, second, third);
    RunJoin(p, first, second + third);
    CalmIs(Run(r, third), 1, 4);
    var f := r.grants[0];
    DrainTaken(Run(r, third).snd, f);
    assert first + (second + third) == [AddCredit(5), RcvPass, TakeGrant, Drain, RcvPass, SendFrame(env), Write, TakeFrame];
  }

  /** A link on manual credit with nothing on the way to the receiver. */
  predicate Calm(p: Pair, count: uint32, credit: uint32) {
    && LiveSender(p.snd) && LiveReceiver(p.rcv) && !p.rcv.auto
    && p.snd.counters == p.rcv.counters == Counters(count, credit)
    && p.wire == [] && p.staged.None? && p.rollbacks == 0
  }

  lemma {:induction false} CalmIs(p: Pair, count: uint32, credit: uint32)
    requires Calm(p, count, credit)
    ensures LiveSender(p.snd) && p.snd.counters == p.rcv.counters == Counters(count, credit)
    ensures p.wire == [] && p.staged.None? && p.rollbacks == 0
  {
  }

  lemma {:induction false} FiveGranted(snd: uint32, rcv: uint32)
    ensures var p, es := Opened(snd, rcv, false, 0, 0), [AddCredit(5), RcvPass, TakeGrant];
            ValidRun(p, es) && Calm(Run(p, es), 0, 5) && Run(p, es).grants == [] && !Run(p, es).rcv.creditor.draining
  {
    var p := Opened(snd, rcv, false, 0, 0);
    var p1 := Step(p, AddCredit(5));
    var p2 := Step(p1, RcvPass);
    assert p2.grants == [CreditFlow(rcv, Counters(0, 5))] && p2.rcv.counters == Counters(0, 5);
    var p3 := Step(p2, TakeGrant);
    assert p3.snd.counters == Counters(0, 5) && p3.grants == [] && p3.wire == [];
    hide Step, Enabled, Opened, Calm;
    RunThree(p, AddCredit(5), RcvPass, TakeGrant);
  }

  lemma {:induction false} DrainLeaves(p: Pair, count: uint32, credit: uint32)
    requires Calm(p, count, credit) && p.grants == [] && !p.rcv.creditor.draining
    ensures var es := [Drain, RcvPass];
            && ValidRun(p, es) && Calm(Run(p, es), count, credit)
            && |Run(p, es).grants| == 1 && OwnFlow(Run(p, es).grants[0])
            && Run(p, es).grants[0].drain && Run(p, es).grants[0].deliveryCount == Some(count)
  {
    var p1 := Step(p, Drain);
    assert p1.rcv == p.rcv.(creditor := StartDrain(p.rcv.creditor)) && p1.grants == [];
    PassDrains(p1.rcv);
    var p2 := Step(p1, RcvPass);
    assert NewFlow(p1.rcv.end, p2.rcv.end) == [DrainFlow(p1.rcv)];
    hide Step, Enabled;
    RunOne(p1, RcvPass, []);
    RunOne(p, Drain, [RcvPass]);
    assert [Drain] + [RcvPass] == [Drain, RcvPass] && [RcvPass] + [] == [RcvPass];
  }

  /** A message is handed over, written and received. */
  lemma {:induction false} MessageCrosses(p: Pair, count: uint32, credit: uint32, env: Delivery.Envelope)
    requires Calm(p, count, credit) && credit > 0 && count + 1 < MOD32 && !env.frame.more
    ensures var es := [SendFrame(env), Write, TakeFrame];
            ValidRun(p, es) && Calm(Run(p, es), count + 1, credit - 1) && Run(p, es).grants == p.grants
  {
    NoWrap(count, 1);
    NoWrap(credit, 1);
    var p1 := Step(p, SendFrame(env));
    assert p1.snd.counters == Counters(count + 1, credit - 1) && p1.wire == [] && p1.rcv == p.rcv;
    var p2 := Step(p1, Write);
    TransferCounts(p2.rcv, true);
    var p3 := Step(p2, TakeFrame);
    assert p3.wire == [] && p3.grants == p.grants && Calm(p3, count + 1, credit - 1);
    hide Step, Enabled, Calm;
    RunThree(p, SendFrame(env), Write, TakeFrame);
  }

  lemma {:induction false} RunThree(p: Pair, a: Event, b: Event, c: Event)
    requires Enabled(p, a) && Enabled(Step(p, a), b) && Enabled(Step(Step(p, a), b), c)
    ensures ValidRun(p, [a, b, c]) && Run(p, [a, b, c]) == Step(Step(Step(p, a), b), c)
  {
    hide Step, Enabled;
    RunOne(Step(Step(p, a), b), c, []);
    RunOne(Step(p, a), b, [c]);
    RunOne(p, a, [b, c]);
    assert [c] + [] == [c] && [b] + [c] == [b, c] && [a] + [b, c] == [a, b, c];
  }

  lemma {:induction false} RunJoin(p: Pair, a: seq<Event>, b: seq<Event>)
    requires ValidRun(p, a) && ValidRun(Run(p, a), b)
    ensures ValidRun(p, a + b) && Run(p, a + b) == Run(Run(p, a), b)
    decreases |a|
  {
    hide Step, Enabled;
    if a == [] {
      assert a + b == b;
    } else {
      RunJoin(Step(p, a[0]), a[1..], b);
      RunOne(p, a[0], a[1..] + b);
      assert [a[0]] + (a[1..] + b) == a + b;
    }
  }

  lemma {:induction false} RunOne(p: Pair, e: Event, es: seq<Event>)
    requires Enabled(p, e) && ValidRun(Step(p, e), es)
    ensures ValidRun(p, [e] + es) && Run(p, [e] + es) == Run(Step(p, e), es)
  {
    hide Step, Enabled;
    assert ([e] + es)[1..] == es;
  }
}
