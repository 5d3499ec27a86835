/** Automatic credit: what the receiver's credit, its counters and its messages add up to. */
module AutoCredit {
  import opened Words
  import opened Values
  import opened Links
  import opened Receiving
  import opened InFlight

  datatype Queued = Queued(id: uint32, settled: bool)

  /**
   A receiver on automatic credit with its messages: queued, taken by the user and not settled,
   and awaiting the peer's acknowledgement. unsettled is the receiver's own count.
   */
  datatype World = World(r: ReceiverState, second: bool, queue: seq<Queued>, held: multiset<uint32>, flight: Flight,
                         unsettled: int)

  datatype Event =
    | Arrive(id: uint32, settled: bool)                 // the last transfer of a message
    | Take                                              // Receive or Prefetched
    | SettleFirst(id: uint32)                           // mode first: settled when the disposition is sent
    | SettleSecond(id: uint32, waiter: nat)             // mode second: in flight until acknowledged
    | Retry(id: uint32, waiter: nat)                    // the same again after giving up waiting
    | Acknowledge(first: uint32, last: uint32, outcome: Outcome)
    | Mux(path: Path)                                   // the mux passes down to its select

  predicate Enabled(w: World, e: Event) {
    match e
    case Arrive(_, _) => w.r.counters.credit > 0
    case Take => w.queue != []
    case SettleFirst(id) => !w.second && id in w.held
    case SettleSecond(id, _) => w.second && id in w.held && id !in w.flight.waiting
    case Retry(id, _) => w.second && id in w.flight.waiting
    case Acknowledge(_, last, _) => w.second && last < MOD32 - 1
    case Mux(_) => !w.r.end.life.exited && w.r.end.life.doneErr.None?
  }

  function Step(w: World, e: Event): (v: World)
    requires Enabled(w, e)
  {
    match e
    case Arrive(id, settled) =>
      w.(r := Receiving.Step(w.r, TransferIn(true)), queue := w.queue + [Queued(id, settled)],
         unsettled := if settled then w.unsettled else w.unsettled + 1)
    case Take =>
      var m := w.queue[0];
      var w := w.(queue := w.queue[1..]);
      if m.settled then w.(r := Receiving.Step(w.r, SettledIn(1))) else w.(held := w.held + multiset{m.id})
    case SettleFirst(id) =>
      w.(held := w.held - multiset{id}, unsettled := w.unsettled - 1, r := Receiving.Step(w.r, SettledIn(1)))
    case SettleSecond(id, waiter) =>
      w.(held := w.held - multiset{id}, flight := Add(w.flight, id, waiter))
    case Retry(id, waiter) => w.(flight := Add(w.flight, id, waiter))
    case Acknowledge(first, last, o) =>
      RangeBound(w.flight, first, last);
      var n := |Hit(w.flight, first, last)|;
      w.(flight := RemoveFrom(w.flight, first, last, o), unsettled := w.unsettled - n,
         r := Receiving.Step(w.r, SettledIn(n)))
    case Mux(path) => w.(r := Receiving.Step(w.r, Top(path)))
  }

  function Run(w: World, es: seq<Event>): (v: World)
    requires ValidRun(w, es)
    decreases |es|
  {
    if es == [] then w else Run(Step(w, es[0]), es[1..])
  }

  predicate ValidRun(w: World, es: seq<Event>)
    decreases |es|
  {
    es == [] || (Enabled(w, es[0]) && ValidRun(Step(w, es[0]), es[1..]))
  }

  function Count(q: seq<Queued>, settled: bool): (n: nat) {
    if q == [] then 0 else (if q[0].settled == settled then 1 else 0) + Count(q[1..], settled)
  }

  lemma {:induction false} CountMore(q: seq<Queued>, m: Queued, settled: bool)
    ensures Count(q + [m], settled) == Count(q, settled) + if m.settled == settled then 1 else 0
  {
    if q == [] {
      assert q + [m] == [m] && [m][1..] == [];
    } else {
      assert (q + [m])[1..] == q[1..] + [m];
      CountMore(q[1..], m, settled);
    }
  }

  /** Messages that have used credit and not yet given it back. */
  function Outstanding(w: World): (n: int) {
    w.unsettled + Count(w.queue, true)
  }

  /** Credit given, credit to be given back and messages outstanding make up the credit configured. */
  predicate Conserved(w: World, total: uint32) {
    && w.r.auto && !w.r.creditor.pendingDrain && !w.r.creditor.draining
    && w.r.counters.credit + w.r.settlementCount + w.r.creditor.creditsToAdd + Outstanding(w) == total
    && w.unsettled == Count(w.queue, false) + |w.held| + |w.flight.waiting|
  }

  lemma {:induction false} AddSize(f: Flight, id: uint32, waiter: nat)
    ensures |Add(f, id, waiter).waiting| == |f.waiting| + if id in f.waiting then 0 else 1
  {
    var g := Add(f, id, waiter);
    if id in f.waiting {
      assert g.waiting.Keys == f.waiting.Keys;
    } else {
      assert g.waiting.Keys == f.waiting.Keys + {id};
    }
    assert |g.waiting| == |g.waiting.Keys| && |f.waiting| == |f.waiting.Keys|;
  }

  lemma {:induction false} RemoveSize(f: Flight, first: uint32, last: uint32, o: Outcome)
    ensures |RemoveFrom(f, first, last, o).waiting| == |f.waiting| - |Hit(f, first, last)|
  {
    RemoveExact(f, first, last, o);
    var g, hit := RemoveFrom(f, first, last, o), Hit(f, first, last);
    assert g.waiting.Keys == f.waiting.Keys - hit && hit <= f.waiting.Keys;
    assert |g.waiting| == |g.waiting.Keys| && |f.waiting| == |f.waiting.Keys|;
  }

  /** What the mux's pass leaves: all settled deliveries reclaimed, or fewer of them than credit left. */
  lemma {:induction false} MuxPass(r: ReceiverState, path: Path)
    requires r.auto && !r.creditor.pendingDrain && !r.creditor.draining
    requires r.end.life.doneErr.None? && !r.end.life.exited
    requires r.counters.credit + r.settlementCount + r.creditor.creditsToAdd < MOD32
    ensures var s := Receiving.Step(r, Top(path));
            && s.auto && s.creditor == IDLE_CREDITOR
            && s.counters.credit + s.settlementCount
               == r.counters.credit + r.settlementCount + r.creditor.creditsToAdd
            && (s.settlementCount < s.counters.credit || s.counters.credit == 0 == s.settlementCount)
  {
    hide Reply;
    NoWrap(r.creditor.creditsToAdd, r.settlementCount);
    var s := Reclaim(r);
    NoWrap(s.creditor.creditsToAdd, s.counters.credit);
  }

  lemma {:induction false} SettledCounted(r: ReceiverState, n: uint32)
    requires r.auto && r.settlementCount + n < MOD32
    ensures Receiving.Step(r, SettledIn(n)).settlementCount == r.settlementCount + n
    ensures var s := Receiving.Step(r, SettledIn(n)); s == r.(settlementCount := s.settlementCount)
  {
    NoWrap(r.settlementCount, n);
  }

  lemma {:induction false} ArrivedCounted(r: ReceiverState)
    requires r.auto && r.counters.credit > 0
    ensures var s := Receiving.Step(r, TransferIn(true));
            s == r.(counters := s.counters) && s.counters.credit == r.counters.credit - 1
  {
    NoWrap(r.counters.credit, 1);
  }

  lemma {:induction false} ConservedStep(w: World, e: Event, total: uint32)
    requires Enabled(w, e) && Conserved(w, total)
    ensures Conserved(Step(w, e), total)
  {
    hide Receiving.Step, Count, RemoveFrom, Hit, Add;
    match e {
      case Arrive(id, settled) =>
        ArrivedCounted(w.r);
        CountMore(w.queue, Queued(id, settled), true);
        CountMore(w.queue, Queued(id, settled), false);
      case Take =>
        CountFirst(w.queue, true);
        CountFirst(w.queue, false);
        if w.queue[0].settled { SettledCounted(w.r, 1); }
      case SettleFirst(id) => SettledCounted(w.r, 1);
      case SettleSecond(id, waiter) => AddSize(w.flight, id, waiter);
      case Retry(id, waiter) => AddSize(w.flight, id, waiter);
      case Acknowledge(first, last, o) =>
        RemoveSize(w.flight, first, last, o);
        SettledCounted(w.r, |Hit(w.flight, first, last)|);
      case Mux(path) => MuxPass(w.r, path);
    }
  }

  lemma {:induction false} CountFirst(q: seq<Queued>, settled: bool)
    requires q != []
    ensures Count(q, settled) == (if q[0].settled == settled then 1 else 0) + Count(q[1..], settled)
  {
  }

  /** Conservation over whole runs, in both settlement modes. */
  lemma {:induction false} ConservedRun(w: World, es: seq<Event>, total: uint32)
    requires ValidRun(w, es) && Conserved(w, total)
    ensures Conserved(Run(w, es), total)
    decreases |es|
  {
    hide Step, Enabled, Conserved;
    if es != [] {
      ConservedStep(w, es[0], total);
      ConservedRun(Step(w, es[0]), es[1..], total);
    }
  }

  /**
   A receiver with fewer messages outstanding than its credit never stalls: after the mux's pass
   the credit left is more than half of what is not outstanding.
   */
  lemma {:induction false} NeverStalls(w: World, path: Path, total: uint32)
    requires Conserved(w, total) && Enabled(w, Mux(path)) && Outstanding(w) < total
    ensures 2 * Step(w, Mux(path)).r.counters.credit > total - Outstanding(w)
  {
    hide Receiving.Step, Count;
    MuxPass(w.r, path);
  }

  /** A new receiver, after the flow its mux starts with. */
  function Opened(handle: uint32, count: uint32, total: uint32, second: bool): (w: World) {
    var r := ReceiverState(true, Counters(count, total), 0, IDLE_CREDITOR, LinkEnd(handle, OPEN_LINK, []));
    World(SendFlow(r, Bits(false, total), Passed), second, [], multiset{}, Flight(map[], []), 0)
  }

  lemma {:induction false} EveryRun(handle: uint32, count: uint32, total: uint32, second: bool, es: seq<Event>)
    requires ValidRun(Opened(handle, count, total, second), es)
    ensures Conserved(Run(Opened(handle, count, total, second), es), total)
  {
    ConservedRun(Opened(handle, count, total, second), es, total);
  }

  /** Settling in mode second, and trying again, both end with the next acknowledgement that names the message. */
  lemma {:induction false} SettlingAnswered(w: World, e: Event, first: uint32, last: uint32, o: Outcome)
    requires (e.SettleSecond? || e.Retry?) && Enabled(w, e) && first <= e.id <= last < MOD32 - 1
    ensures var v := Step(w, e);
            && Enabled(v, Acknowledge(first, last, o))
            && Told(e.waiter, o) in Step(v, Acknowledge(first, last, o)).flight.told
            && e.id !in Step(v, Acknowledge(first, last, o)).flight.waiting
  {
    hide Receiving.Step, RemoveFrom, FromRange;
    var v := Step(w, e);
    HitTold(v.flight, first, last, o, e.id);
    RemoveExact(v.flight, first, last, o);
  }
}
