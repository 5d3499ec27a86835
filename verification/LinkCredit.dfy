/**
 A sender and a receiver joined by two FIFO channels. The counters both ends keep in 32 bits are
 proved to be unbounded counters taken modulo 2^32, for which the credit rules are ordinary
 inequalities.
 */
module LinkCredit {
  import opened Words
  import opened Links
  import Delivery
  import Messages
  import Frames

  /** What travels to the receiver: transfers, and flows the sender answers or asks with. */
  datatype Wire = Frame(more: bool) | Answer(echo: bool)

  /** The unbounded view. */
  datatype End = End(count: int, credit: int)
  datatype Grant = Grant(count: int, credit: int, echo: bool)

  /**
   staged is the transfer handed to the session and not yet written, its more flag kept; a write
   that fails on the last frame leaves a rollback for the sender's mux.
   */
  datatype Ideal = Ideal(snd: End, staged: Option<bool>, rollbacks: nat, wire: seq<Wire>, grants: seq<Grant>, rcv: End)

  /** What the code holds. */
  datatype Grant32 = Grant32(count: uint32, credit: uint32, echo: bool)
  datatype Joint = Joint(snd: Counters, staged: Option<bool>, rollbacks: nat, wire: seq<Wire>, grants: seq<Grant32>,
                         rcv: Counters)

  datatype Event =
    | Issue(credits: uint32)     // the receiver adds credit and sends a flow
    | AskSender                  // the receiver repeats its flow, asking for an answer
    | AskReceiver                // the sender sends a flow asking for an answer
    | TakeGrant                  // the sender handles the next flow
    | Stop                       // the sender handles a drain that has counted all it sent
    | SendFrame(more: bool)      // the sender hands a transfer to the session
    | Write                      // the session writes it
    | Cancel                     // or does not
    | RollBack                   // the sender's mux hears of it
    | TakeFrame                  // the receiver handles the next frame

  // ---- the code ----------------------------------------------------------------------

  /** FlowBits and muxFlow, not draining: a sum that wraps to zero sends nothing. */
  function Issued(c: Counters, credits: uint32): (r: Counters) {
    var sum := Add32(credits, c.credit);
    if credits == 0 || sum == 0 then c else c.(credit := sum)
  }

  /** The end of muxReceive. */
  function Received(c: Counters): (r: Counters) {
    Counters(Add32(c.count, 1), Sub32(c.credit, 1))
  }

  function GrantOf(c: Counters, echo: bool): (g: Grant32) {
    Grant32(c.count, c.credit, echo)
  }

  predicate Enabled(j: Joint, e: Event) {
    match e
    case Issue(credits) => credits > 0 && credits + j.rcv.credit < MOD32
    case TakeGrant => j.grants != []
    case SendFrame(_) => j.snd.credit > 0 && j.staged.None? && j.rollbacks == 0
    case Write => j.staged.Some?
    case Cancel => j.staged.Some?
    case RollBack => j.rollbacks > 0
    case TakeFrame => j.wire != []
    case _ => true
  }

  function Step(j: Joint, e: Event): (r: Joint)
    requires Enabled(j, e)
  {
    match e
    case Issue(credits) =>
      var c := Issued(j.rcv, credits);
      j.(rcv := c, grants := j.grants + [GrantOf(c, false)])
    case AskSender => j.(grants := j.grants + [GrantOf(j.rcv, true)])
    case AskReceiver => j.(wire := j.wire + [Answer(true)])
    case TakeGrant =>
      var g := j.grants[0];
      j.(snd := FlowFormula(j.snd, g.credit, Some(g.count)), grants := j.grants[1..],
         wire := if g.echo then j.wire + [Answer(false)] else j.wire)
    case Stop => j.(snd := j.snd.(credit := 0))
    case SendFrame(more) => j.(snd := AfterTransfer(j.snd, more), staged := Some(more))
    case Write => j.(staged := None, wire := j.wire + [Frame(j.staged.value)])
    case Cancel => j.(staged := None, rollbacks := if j.staged.value then j.rollbacks else j.rollbacks + 1)
    case RollBack => j.(snd := RolledBack(j.snd), rollbacks := j.rollbacks - 1)
    case TakeFrame =>
      var f := j.wire[0];
      var j := j.(wire := j.wire[1..]);
      match f
      case Frame(more) => if more then j else j.(rcv := Received(j.rcv))
      case Answer(echo) => if echo then j.(grants := j.grants + [GrantOf(j.rcv, false)]) else j
  }

  function Run(j: Joint, es: seq<Event>): (r: Joint)
    requires ValidRun(j, es)
    decreases |es|
  {
    if es == [] then j else Run(Step(j, es[0]), es[1..])
  }

  predicate ValidRun(j: Joint, es: seq<Event>)
    decreases |es|
  {
    es == [] || (Enabled(j, es[0]) && ValidRun(Step(j, es[0]), es[1..]))
  }

  /** After attach: equal delivery counts; an automatic receiver has sent its first flow. */
  function Attached(count: uint32, credit: uint32): (j: Joint) {
    var c := Counters(count, credit);
    Joint(Counters(count, 0), None, 0, [], [GrantOf(c, false)], c)
  }

  // ---- the unbounded view ------------------------------------------------------------

  function IdealStep(i: Ideal, e: Event): (r: Ideal)
    requires e.TakeGrant? ==> i.grants != []
    requires e.Write? || e.Cancel? ==> i.staged.Some?
    requires e.RollBack? ==> i.rollbacks > 0
    requires e.TakeFrame? ==> i.wire != []
  {
    match e
    case Issue(credits) =>
      var c := i.rcv.(credit := i.rcv.credit + credits);
      i.(rcv := c, grants := i.grants + [Grant(c.count, c.credit, false)])
    case AskSender => i.(grants := i.grants + [Grant(i.rcv.count, i.rcv.credit, true)])
    case AskReceiver => i.(wire := i.wire + [Answer(true)])
    case TakeGrant =>
      var g := i.grants[0];
      i.(snd := i.snd.(credit := g.count + g.credit - i.snd.count), grants := i.grants[1..],
         wire := if g.echo then i.wire + [Answer(false)] else i.wire)
    case Stop => i.(snd := i.snd.(credit := 0))
    case SendFrame(more) =>
      i.(snd := if more then i.snd else End(i.snd.count + 1, i.snd.credit - 1), staged := Some(more))
    case Write => i.(staged := None, wire := i.wire + [Frame(i.staged.value)])
    case Cancel => i.(staged := None, rollbacks := if i.staged.value then i.rollbacks else i.rollbacks + 1)
    case RollBack => i.(snd := End(i.snd.count - 1, i.snd.credit + 1), rollbacks := i.rollbacks - 1)
    case TakeFrame =>
      var f := i.wire[0];
      var i := i.(wire := i.wire[1..]);
      match f
      case Frame(more) => if more then i else i.(rcv := End(i.rcv.count + 1, i.rcv.credit - 1))
      case Answer(echo) => if echo then i.(grants := i.grants + [Grant(i.rcv.count, i.rcv.credit, false)]) else i
  }

  /** What the code holds of it. */
  function Wrapped(i: Ideal): (j: Joint) {
    Joint(WrapEnd(i.snd), i.staged, i.rollbacks, i.wire, WrapGrants(i.grants), WrapEnd(i.rcv))
  }

  function WrapEnd(e: End): (c: Counters) {
    Counters(Wrap(e.count), Wrap(e.credit))
  }

  function WrapGrant(g: Grant): (h: Grant32) {
    Grant32(Wrap(g.count), Wrap(g.credit), g.echo)
  }

  function WrapGrants(gs: seq<Grant>): (hs: seq<Grant32>)
    ensures |hs| == |gs|
  {
    if gs == [] then [] else [WrapGrant(gs[0])] + WrapGrants(gs[1..])
  }

  // ---- the invariant -----------------------------------------------------------------

  /** The delivery count up to which an end or a flow allows messages. */
  function Limit(e: End): (n: int) { e.count + e.credit }
  function GrantLimit(g: Grant): (n: int) { g.count + g.credit }

  /** The limits in flight do not fall, from lo to hi. */
  predicate Rising(lo: int, gs: seq<Grant>, hi: int)
    decreases |gs|
  {
    if gs == [] then lo <= hi else lo <= GrantLimit(gs[0]) && Rising(GrantLimit(gs[0]), gs[1..], hi)
  }

  /** Deliveries completed on the wire. */
  function Finals(ws: seq<Wire>): (n: nat) {
    if ws == [] then 0 else (if ws[0] == Frame(false) then 1 else 0) + Finals(ws[1..])
  }

  /** Deliveries the sender has counted and the receiver has not. */
  function Ahead(i: Ideal): (n: nat) {
    Finals(i.wire) + (if i.staged == Some(false) then 1 else 0) + i.rollbacks
  }

  predicate Inv(i: Ideal) {
    && i.snd.count == i.rcv.count + Ahead(i)
    && 0 <= i.snd.credit && 0 <= i.rcv.credit < MOD32
    && Rising(Limit(i.snd), i.grants, Limit(i.rcv))
  }

  lemma {:induction false} RisingEnds(lo: int, gs: seq<Grant>, hi: int)
    requires Rising(lo, gs, hi)
    ensures lo <= hi
    decreases |gs|
  {
    if gs != [] { RisingEnds(GrantLimit(gs[0]), gs[1..], hi); }
  }

  lemma {:induction false} RisingMore(lo: int, gs: seq<Grant>, hi: int, g: Grant, top: int)
    requires Rising(lo, gs, hi) && hi <= GrantLimit(g) <= top
    ensures Rising(lo, gs + [g], top)
    decreases |gs|
  {
    if gs == [] {
      assert gs + [g] == [g] && [g][1..] == [];
    } else {
      assert (gs + [g])[1..] == gs[1..] + [g];
      RisingMore(GrantLimit(gs[0]), gs[1..], hi, g, top);
    }
  }

  lemma {:induction false} FinalsMore(ws: seq<Wire>, w: Wire)
    ensures Finals(ws + [w]) == Finals(ws) + if w == Frame(false) then 1 else 0
  {
    if ws == [] {
      assert ws + [w] == [w] && [w][1..] == [];
    } else {
      assert (ws + [w])[1..] == ws[1..] + [w];
      FinalsMore(ws[1..], w);
    }
  }

  lemma {:induction false} WrapGrantsMore(gs: seq<Grant>, g: Grant)
    ensures WrapGrants(gs + [g]) == WrapGrants(gs) + [WrapGrant(g)]
  {
    if gs == [] {
      assert gs + [g] == [g] && [g][1..] == [];
    } else {
      assert (gs + [g])[1..] == gs[1..] + [g];
      WrapGrantsMore(gs[1..], g);
    }
  }

  /** Credits stay within 32 bits on both sides. */
  lemma {:induction false} Bounds(i: Ideal)
    requires Inv(i)
    ensures i.rcv.count <= i.snd.count && 0 <= i.snd.credit <= i.rcv.credit
    ensures i.snd.credit + Ahead(i) <= i.rcv.credit
    ensures Wrap(i.snd.credit) == i.snd.credit && Wrap(i.rcv.credit) == i.rcv.credit
  {
    RisingEnds(Limit(i.snd), i.grants, Limit(i.rcv));
  }

  lemma {:induction false} InvStep(i: Ideal, e: Event)
    requires Inv(i) && Enabled(Wrapped(i), e)
    ensures e.TakeGrant? ==> i.grants != []
    ensures Inv(IdealStep(i, e))
  {
    hide Rising, Finals, Wrap, Add32, Sub32;
    Bounds(i);
    match e {
      case Issue(credits) =>
        var r := i.rcv.(credit := i.rcv.credit + credits);
        RisingMore(Limit(i.snd), i.grants, Limit(i.rcv), Grant(r.count, r.credit, false), Limit(r));
      case AskSender =>
        RisingMore(Limit(i.snd), i.grants, Limit(i.rcv), Grant(i.rcv.count, i.rcv.credit, true), Limit(i.rcv));
      case AskReceiver => FinalsMore(i.wire, Answer(true));
      case TakeGrant =>
        RisingFirst(Limit(i.snd), i.grants, Limit(i.rcv));
        FinalsMore(i.wire, Answer(false));
      case Stop => RisingLower(Limit(i.snd), i.grants, Limit(i.rcv), i.snd.count);
      case Write => FinalsMore(i.wire, Frame(i.staged.value));
      case TakeFrame =>
        FinalsFirst(i.wire);
        if i.wire[0] == Answer(true) {
          RisingMore(Limit(i.snd), i.grants, Limit(i.rcv), Grant(i.rcv.count, i.rcv.credit, false), Limit(i.rcv));
        }
      case _ =>
    }
  }

  lemma {:induction false} RisingLower(lo: int, gs: seq<Grant>, hi: int, lower: int)
    requires Rising(lo, gs, hi) && lower <= lo
    ensures Rising(lower, gs, hi)
  {
  }

  lemma {:induction false} RisingFirst(lo: int, gs: seq<Grant>, hi: int)
    requires gs != [] && Rising(lo, gs, hi)
    ensures lo <= GrantLimit(gs[0]) && Rising(GrantLimit(gs[0]), gs[1..], hi)
  {
  }

  lemma {:induction false} FinalsFirst(ws: seq<Wire>)
    requires ws != []
    ensures Finals(ws) == (if ws[0] == Frame(false) then 1 else 0) + Finals(ws[1..])
  {
  }

  // ---- refinement --------------------------------------------------------------------

  /** The formula in 32 bits computes the distance to the limit. */
  lemma {:induction false} FormulaExact(snd: End, g: Grant)
    ensures FlowFormula(WrapEnd(snd), Wrap(g.credit), Some(Wrap(g.count)))
            == WrapEnd(snd.(credit := g.count + g.credit - snd.count))
  {
    hide Wrap, Add32, Sub32;
    WrapAdd(g.credit, snd.count);
    WrapAdd(g.credit - snd.count, g.count);
    assert g.credit - snd.count + g.count == g.count + g.credit - snd.count;
  }

  lemma {:induction false} OneMore(n: int)
    ensures Wrap(n + 1) == Add32(Wrap(n), 1) && Wrap(n - 1) == Sub32(Wrap(n), 1)
  {
    WrapAdd(n, 1);
  }

  lemma {:induction false} StepRefines(i: Ideal, e: Event)
    requires Inv(i) && Enabled(Wrapped(i), e)
    ensures e.TakeGrant? ==> i.grants != []
    ensures Step(Wrapped(i), e) == Wrapped(IdealStep(i, e))
  {
    hide Wrap, Add32, Sub32, Rising, Finals, FlowFormula, WrapGrants;
    Bounds(i);
    match e {
      case Issue(credits) => IssueRefines(i, credits);
      case AskSender => WrapGrantsMore(i.grants, Grant(i.rcv.count, i.rcv.credit, true));
      case TakeGrant =>
        WrapGrantsFirst(i.grants);
        FormulaExact(i.snd, i.grants[0]);
      case Stop => NoWrap(0, 0);
      case SendFrame(more) => OneMore(i.snd.count); OneMore(i.snd.credit);
      case RollBack => OneMore(i.snd.count); OneMore(i.snd.credit);
      case TakeFrame =>
        OneMore(i.rcv.count);
        OneMore(i.rcv.credit);
        WrapGrantsMore(i.grants, Grant(i.rcv.count, i.rcv.credit, false));
      case _ =>
    }
  }

  lemma {:induction false} WrapGrantsFirst(gs: seq<Grant>)
    requires gs != []
    ensures WrapGrants(gs)[0] == WrapGrant(gs[0]) && WrapGrants(gs)[1..] == WrapGrants(gs[1..])
  {
  }

  lemma {:induction false} IssuedIs(c: Counters, credits: uint32)
    requires credits > 0 && credits + c.credit < MOD32
    ensures Issued(c, credits) == c.(credit := c.credit + credits)
  {
    NoWrap(credits, c.credit);
  }

  lemma {:induction false} IssueRefines(i: Ideal, credits: uint32)
    requires Inv(i) && Enabled(Wrapped(i), Issue(credits))
    ensures Step(Wrapped(i), Issue(credits)) == Wrapped(IdealStep(i, Issue(credits)))
  {
    hide Wrap, Add32, Sub32, Rising, Finals, WrapGrants, Issued, Ahead;
    Bounds(i);
    IssuedIs(Wrapped(i).rcv, credits);
    NoWrap(i.rcv.credit + credits, 0);
    WrapGrantsMore(i.grants, Grant(i.rcv.count, i.rcv.credit + credits, false));
  }

  /** No decrement ever underflows, on either side. */
  lemma {:induction false} NoUnderflow(i: Ideal)
    requires Inv(i)
    ensures i.wire != [] && i.wire[0] == Frame(false) ==> Wrapped(i).rcv.credit > 0
    ensures i.rollbacks > 0 ==> Wrapped(i).snd.credit + 1 < MOD32
  {
    Bounds(i);
    if i.wire != [] { FinalsFirst(i.wire); }
  }

  function IdealRun(i: Ideal, es: seq<Event>): (r: Ideal)
    requires Inv(i) && ValidRun(Wrapped(i), es)
    decreases |es|
  {
    if es == [] then i
    else
      InvStep(i, es[0]);
      StepRefines(i, es[0]);
      IdealRun(IdealStep(i, es[0]), es[1..])
  }

  /**
   Link-credit safety: every run of the joined code is the wrapped image of an unbounded run in
   which the sender's limit, the limits in flight and the receiver's limit stay in order, and the
   sender is ahead by exactly the deliveries in flight and the rollbacks to come.
   */
  lemma {:induction false} RunRefines(i: Ideal, es: seq<Event>)
    requires Inv(i) && ValidRun(Wrapped(i), es)
    ensures Inv(IdealRun(i, es)) && Run(Wrapped(i), es) == Wrapped(IdealRun(i, es))
    decreases |es|
  {
    hide Inv, Step, IdealStep;
    if es != [] {
      InvStep(i, es[0]);
      StepRefines(i, es[0]);
      RunRefines(IdealStep(i, es[0]), es[1..]);
    }
  }

  function AttachedIdeal(count: uint32, credit: uint32): (i: Ideal) {
    Ideal(End(count, 0), None, 0, [], [Grant(count, credit, false)], End(count, credit))
  }

  /** From attach on, with any initial delivery count and credit. */
  lemma {:induction false} AttachedRuns(count: uint32, credit: uint32, es: seq<Event>)
    requires ValidRun(Attached(count, credit), es)
    ensures var i := AttachedIdeal(count, credit);
            && Inv(i) && Wrapped(i) == Attached(count, credit)
            && Inv(IdealRun(i, es)) && Run(Attached(count, credit), es) == Wrapped(IdealRun(i, es))
  {
    var i := AttachedIdeal(count, credit);
    assert i.grants[1..] == [] && Rising(GrantLimit(i.grants[0]), [], Limit(i.rcv));
    NoWrap(count, credit);
    assert Wrapped(i) == Attached(count, credit);
    RunRefines(i, es);
  }

  // ---- the receiver's counters -------------------------------------------------------

  /** Reassembly counts a delivery, as Received does, with every message it completes and with nothing else. */
  lemma {:induction false} CountersAgree(r: Delivery.Rx, fr: Frames.Transfer)
    ensures var s := Delivery.Receive(r, fr);
            Counters(s.deliveryCount, s.linkCredit) ==
            if |s.queue| > |r.queue| then Received(Counters(r.deliveryCount, r.linkCredit))
            else Counters(r.deliveryCount, r.linkCredit)
  {
    hide Add32, Sub32, Messages.Unmarshal, Delivery.Check, Delivery.Record;
  }

  // ---- where the rules end -----------------------------------------------------------

  /** New credit keeps the receiver's limit from falling exactly when the sum fits 32 bits. */
  lemma {:induction false} IssueKeepsLimit(c: Counters, credits: uint32)
    requires credits > 0
    ensures Issued(c, credits).credit >= c.credit && Issued(c, credits) != c <==> credits + c.credit < MOD32
  {
  }

  /** A flow without a delivery count gives the right credit exactly when that count is zero. */
  lemma {:induction false} MissingCount(c: Counters, credit: uint32, count: uint32)
    ensures FlowFormula(c, credit, None) == FlowFormula(c, credit, Some(count)) <==> count == 0
  {
    var k := Sub32(credit, c.count);
    if count != 0 && Add32(k, count) == k {
      ModUnique(k + count, k, 0);
    }
  }
}
