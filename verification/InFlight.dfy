/** The receiver's in-flight settlements: waiters keyed by delivery id, each told the outcome once. */
module InFlight {
  import opened Words

  /** A result handed to a waiter: the error of a rejection, none for an acknowledgement, or the mux ending. */
  datatype Outcome = Acknowledged | Rejected(error: nat) | Ended

  datatype Told = Told(waiter: nat, outcome: Outcome)

  /** Waiters by delivery id, and every result sent so far. */
  datatype Flight = Flight(waiting: map<uint32, nat>, told: seq<Told>)

  function Add(f: Flight, id: uint32, waiter: nat): (r: Flight) {
    f.(waiting := f.waiting[id := waiter])
  }

  function RemoveOne(f: Flight, id: uint32, o: Outcome): (r: Flight) {
    if id !in f.waiting then f else Flight(f.waiting - {id}, f.told + [Told(f.waiting[id], o)])
  }

  /** remove over the range id..last. */
  function RemoveFrom(f: Flight, id: int, last: uint32, o: Outcome): (r: Flight)
    requires 0 <= id <= MOD32
    decreases MOD32 - id
  {
    if id > last then f else RemoveFrom(RemoveOne(f, id, o), id + 1, last, o)
  }

  /** The ids in flight within a range. */
  function Hit(f: Flight, first: int, last: uint32): (s: set<uint32>) {
    set id | id in f.waiting && first <= id <= last
  }

  /** A call on the map. */
  datatype Call =
    | AddCall(id: uint32, waiter: nat)
    | RemoveCall(first: uint32, last: Option<uint32>, outcome: Outcome)
    | ClearCall

  predicate Callable(c: Call) {
    c.RemoveCall? ==> (if c.last.Some? then c.last.value else c.first) < MOD32 - 1
  }

  class InFlightMap {
    var waiting: map<uint32, nat>
    var told: seq<Told>

    constructor ()
      ensures State() == Flight(map[], [])
    {
      waiting, told := map[], [];
    }

    ghost function State(): (f: Flight)
      reads this
    {
      Flight(waiting, told)
    }

    method AddWaiter(id: uint32, waiter: nat)
      modifies this
      ensures State() == Add(old(State()), id, waiter)
    {
      waiting := waiting[id := waiter];
    }

    /** The count returned is the number of waiters told, here as a uint32 that cannot wrap. */
    method Remove(first: uint32, last: Option<uint32>, o: Outcome) returns (count: uint32)
      requires (if last.Some? then last.value else first) < MOD32 - 1
      modifies this
      ensures var ll := if last.Some? then last.value else first;
              && State() == RemoveFrom(old(State()), first, ll, o)
              && count == |Hit(old(State()), first, ll)|
    {
      var ll := if last.Some? then last.value else first;
      count := 0;
      var i := first;
      ghost var f0 := State();
      RangeBound(f0, first, ll);
      while i <= ll
        invariant first <= i <= MOD32 - 1
        invariant RemoveFrom(State(), i, ll, o) == RemoveFrom(f0, first, ll, o)
        invariant count + |Hit(State(), i, ll)| == |Hit(f0, first, ll)|
        decreases ll - i
      {
        HitStep(State(), i, ll, o);
        if i in waiting {
          told := told + [Told(waiting[i], o)];
          waiting := waiting - {i};
          count := count + 1;
        }
        i := i + 1;
      }
      assert Hit(State(), i, ll) == {};
    }

    /** clear: every waiter is told, in whatever order the map gives. */
    method Clear() returns (ghost order: seq<uint32>)
      modifies this
      ensures State() == ClearIn(old(State()), order) && waiting == map[]
    {
      ghost var f0 := State();
      order := [];
      ClearNothing(f0);
      while waiting != map[]
        invariant State() == ClearIn(f0, order)
        decreases |waiting|
      {
        var id :| id in waiting;
        ClearSnoc(f0, order, id);
        ghost var keys := waiting.Keys;
        told := told + [Told(waiting[id], Ended)];
        waiting := waiting - {id};
        order := order + [id];
        assert waiting.Keys == keys - {id};
      }
    }

    method Call(c: Call) returns (ghost s: Step)
      requires Callable(c)
      modifies this
      ensures State() == Next(old(State()), s)
      ensures s.AddStep? == c.AddCall? && (c.AddCall? ==> s == AddStep(c.id, c.waiter))
      ensures c.ClearCall? ==> waiting == map[]
    {
      match c {
        case AddCall(id, waiter) =>
          AddWaiter(id, waiter);
          s := AddStep(id, waiter);
        case RemoveCall(first, last, outcome) =>
          var count := Remove(first, last, outcome);
          s := RemoveStep(first, if last.Some? then last.value else first, outcome);
        case ClearCall =>
          ghost var order := Clear();
          s := ClearStep(order);
      }
    }

    /**
     A new map over any calls with a new waiter for each add: nobody is told twice, and exactly those
     have been told nothing that still wait or were displaced; after a clear nobody waits.
     */
    method Drive(cs: seq<Call>) returns (ghost fs: seq<Flight>, ghost ss: seq<Step>)
      requires State() == Flight(map[], [])
      requires forall k | 0 <= k < |cs| :: Callable(cs[k])
      requires forall j, k | 0 <= j < k < |cs| && cs[j].AddCall? && cs[k].AddCall? :: cs[j].waiter != cs[k].waiter
      modifies this
      ensures IsRun(fs, ss) && |ss| == |cs| && State() == fs[|ss|]
      ensures forall k | 0 <= k < |cs| && cs[k].AddCall? ::
                Results(told, cs[k].waiter) ==
                if Waits(State(), cs[k].waiter) || Displaced(fs, ss, cs[k].waiter) then 0 else 1
      ensures cs != [] && cs[|cs| - 1].ClearCall? ==> waiting == map[]
    {
      hide Results, Waits, Displaced, Next;
      fs, ss := [State()], [];
      var k := 0;
      while k < |cs|
        invariant 0 <= k <= |cs| && |ss| == k && IsRun(fs, ss) && State() == fs[k]
        invariant forall j | 0 <= j < k :: ss[j].AddStep? == cs[j].AddCall?
        invariant forall j | 0 <= j < k && cs[j].AddCall? :: ss[j] == AddStep(cs[j].id, cs[j].waiter)
        invariant 0 < k && cs[k - 1].ClearCall? ==> waiting == map[]
      {
        ghost var s := Call(cs[k]);
        fs, ss := fs + [State()], ss + [s];
        k := k + 1;
      }
      ToldAtMostOnce(fs, ss);
      assert forall j | 0 <= j < |cs| && cs[j].AddCall? :: ss[j].AddStep? && ss[j].waiter == cs[j].waiter;
    }
  }

  function ClearIn(f: Flight, order: seq<uint32>): (r: Flight)
    decreases |order|
  {
    if order == [] then f else ClearIn(RemoveOne(f, order[0], Ended), order[1..])
  }

  lemma {:induction false} ClearNothing(f: Flight)
    ensures ClearIn(f, []) == f
  {
  }

  lemma {:induction false} ClearSnoc(f: Flight, order: seq<uint32>, id: uint32)
    ensures ClearIn(f, order + [id]) == RemoveOne(ClearIn(f, order), id, Ended)
    decreases |order|
  {
    if order == [] {
      assert order + [id] == [id];
      assert ClearIn(f, [id]) == ClearIn(RemoveOne(f, id, Ended), []);
    } else {
      assert (order + [id])[1..] == order[1..] + [id];
      ClearSnoc(RemoveOne(f, order[0], Ended), order[1..], id);
    }
  }

  // ---- ranges ------------------------------------------------------------------------

  lemma {:induction false} HitStep(f: Flight, id: uint32, last: uint32, o: Outcome)
    requires id <= last
    ensures |Hit(f, id, last)| == |Hit(RemoveOne(f, id, o), id + 1, last)| + if id in f.waiting then 1 else 0
  {
    var s, t := Hit(f, id, last), Hit(RemoveOne(f, id, o), id + 1, last);
    if id in f.waiting {
      assert s == t + {id};
    } else {
      assert s == t;
    }
  }

  lemma {:induction false} RangeBound(f: Flight, first: int, last: uint32)
    requires 0 <= first <= MOD32
    ensures |Hit(f, first, last)| <= if first > last then 0 else last - first + 1
    decreases MOD32 - first
  {
    if first > last {
      assert Hit(f, first, last) == {};
    } else {
      RangeBound(f, first + 1, last);
      var s := Hit(f, first + 1, last);
      assert Hit(f, first, last) <= s + {first};
      SubsetSize(Hit(f, first, last), s + {first});
    }
  }

  lemma {:induction false} SubsetSize(a: set<uint32>, b: set<uint32>)
    requires a <= b
    ensures |a| <= |b|
  {
    if a != {} {
      var x :| x in a;
      SubsetSize(a - {x}, b - {x});
    }
  }

  /** Some waiter of the range was told this. */
  predicate FromRange(f: Flight, first: int, last: uint32, o: Outcome, x: Told) {
    x.outcome == o && exists id :: id in Hit(f, first, last) && f.waiting[id] == x.waiter
  }

  /** Removing a range empties it, leaves the rest, and tells as many as it held, all of them its waiters. */
  lemma {:induction false} RemoveExact(f: Flight, first: int, last: uint32, o: Outcome)
    requires 0 <= first <= MOD32
    ensures var r := RemoveFrom(f, first, last, o);
            && r.waiting == f.waiting - Hit(f, first, last)
            && |r.told| == |f.told| + |Hit(f, first, last)| && f.told <= r.told
            && forall t | |f.told| <= t < |r.told| :: FromRange(f, first, last, o, r.told[t])
    decreases MOD32 - first
  {
    hide FromRange;
    if first > last {
      assert Hit(f, first, last) == {};
    } else {
      var g := RemoveOne(f, first, o);
      RemoveExact(g, first + 1, last, o);
      HitStep(f, first, last, o);
      HitMore(f, g, first, last, o);
      var r := RemoveFrom(f, first, last, o);
      forall t | |f.told| <= t < |r.told| ensures FromRange(f, first, last, o, r.told[t]) {
        if t >= |g.told| {
          FromMore(f, g, first, last, o, r.told[t]);
        } else {
          assert r.told[t] == g.told[t];
          FromFirst(f, first, last, o);
        }
      }
    }
  }

  lemma {:induction false} HitMore(f: Flight, g: Flight, first: uint32, last: uint32, o: Outcome)
    requires first <= last && g == RemoveOne(f, first, o)
    ensures g.waiting - Hit(g, first + 1, last) == f.waiting - Hit(f, first, last)
  {
  }

  lemma {:induction false} FromMore(f: Flight, g: Flight, first: uint32, last: uint32, o: Outcome, x: Told)
    requires first <= last && g == RemoveOne(f, first, o) && FromRange(g, first + 1, last, o, x)
    ensures FromRange(f, first, last, o, x)
  {
    var id :| id in Hit(g, first + 1, last) && g.waiting[id] == x.waiter;
    assert id in Hit(f, first, last) && f.waiting[id] == x.waiter;
  }

  lemma {:induction false} FromFirst(f: Flight, first: uint32, last: uint32, o: Outcome)
    requires first <= last && first in f.waiting
    ensures FromRange(f, first, last, o, Told(f.waiting[first], o))
  {
    assert first in Hit(f, first, last);
  }

  /** The frame the session passes on once per matching id. */
  function Copies(f: Flight, first: uint32, last: uint32, o: Outcome, n: nat): (r: Flight)
    decreases n
  {
    if n == 0 then f else Copies(RemoveFrom(f, first, last, o), first, last, o, n - 1)
  }

  /** The counts the copies return, added up. */
  function Counts(f: Flight, first: uint32, last: uint32, o: Outcome, n: nat): (c: nat)
    decreases n
  {
    if n == 0 then 0
    else |Hit(f, first, last)| + Counts(RemoveFrom(f, first, last, o), first, last, o, n - 1)
  }

  lemma {:induction false} RemoveNothing(f: Flight, first: int, last: uint32, o: Outcome)
    requires 0 <= first <= MOD32 && Hit(f, first, last) == {}
    ensures RemoveFrom(f, first, last, o) == f
    decreases MOD32 - first
  {
    if first <= last {
      assert forall id | id in f.waiting :: id in Hit(f, first, last) || !(first <= id <= last);
      assert Hit(f, first + 1, last) <= Hit(f, first, last);
      RemoveNothing(f, first + 1, last, o);
    }
  }

  lemma {:induction false} AfterRemove(f: Flight, first: uint32, last: uint32, o: Outcome)
    ensures Hit(RemoveFrom(f, first, last, o), first, last) == {}
  {
    RemoveExact(f, first, last, o);
  }

  /** Fan-out is idempotent: any number of copies settles what one does, and is counted once. */
  lemma {:induction false} FanOut(f: Flight, first: uint32, last: uint32, o: Outcome, n: nat)
    requires n > 0
    ensures Copies(f, first, last, o, n) == RemoveFrom(f, first, last, o)
    ensures Counts(f, first, last, o, n) == |Hit(f, first, last)|
    decreases n
  {
    hide RemoveFrom;
    var g := RemoveFrom(f, first, last, o);
    AfterRemove(f, first, last, o);
    RemoveNothing(g, first, last, o);
    if n > 1 {
      FanOut(g, first, last, o, n - 1);
    }
  }

  // ---- runs --------------------------------------------------------------------------

  datatype Step =
    | AddStep(id: uint32, waiter: nat)
    | RemoveStep(first: uint32, last: uint32, outcome: Outcome)
    | ClearStep(order: seq<uint32>)

  function Next(f: Flight, s: Step): (r: Flight) {
    match s
    case AddStep(id, waiter) => Add(f, id, waiter)
    case RemoveStep(first, last, o) => RemoveFrom(f, first, last, o)
    case ClearStep(order) => ClearIn(f, order)
  }

  /** The states of a run, from the empty map; each waiter is new. */
  ghost predicate IsRun(fs: seq<Flight>, ss: seq<Step>) {
    && |fs| == |ss| + 1 && fs[0] == Flight(map[], [])
    && (forall k | 0 <= k < |ss| :: Next(fs[k], ss[k]) == fs[k + 1])
    && (forall j, k | 0 <= j < k < |ss| && ss[j].AddStep? && ss[k].AddStep? :: ss[j].waiter != ss[k].waiter)
  }

  /** A waiter whose place is taken by another for the same id. */
  predicate Displaces(f: Flight, s: Step, w: nat) {
    s.AddStep? && s.id in f.waiting && f.waiting[s.id] == w
  }

  ghost predicate Displaced(fs: seq<Flight>, ss: seq<Step>, w: nat)
    requires |fs| > |ss|
  {
    exists k :: 0 <= k < |ss| && Displaces(fs[k], ss[k], w)
  }

  predicate Added(ss: seq<Step>, w: nat) {
    exists k :: 0 <= k < |ss| && ss[k].AddStep? && ss[k].waiter == w
  }

  predicate Waits(f: Flight, w: nat) {
    exists id :: id in f.waiting && f.waiting[id] == w
  }

  function Results(told: seq<Told>, w: nat): (n: nat) {
    if told == [] then 0
    else Results(told[..|told| - 1], w) + if told[|told| - 1].waiter == w then 1 else 0
  }

  /** The waiters now waiting are distinct. */
  predicate Distinct(f: Flight) {
    forall i, j | i in f.waiting && j in f.waiting && f.waiting[i] == f.waiting[j] :: i == j
  }

  /** A waiter has had exactly one result, unless it still waits or lost its place: then none. */
  ghost predicate Accounted(f: Flight, ss: seq<Step>, lost: iset<nat>) {
    && Distinct(f)
    && (forall w | Waits(f, w) :: Added(ss, w) && w !in lost)
    && (forall w | w in lost :: Added(ss, w))
    && (forall w :: Results(f.told, w) == if Added(ss, w) && !Waits(f, w) && w !in lost then 1 else 0)
  }

  lemma {:induction false} RemoveKeeps(f: Flight, id: int, last: uint32, o: Outcome, ss: seq<Step>, lost: iset<nat>)
    requires 0 <= id <= MOD32 && Accounted(f, ss, lost)
    ensures Accounted(RemoveFrom(f, id, last, o), ss, lost)
    decreases MOD32 - id
  {
    hide Accounted;
    if id <= last {
      RemoveOneKeeps(f, id, o, ss, lost);
      RemoveKeeps(RemoveOne(f, id, o), id + 1, last, o, ss, lost);
    }
  }

  lemma {:induction false} RemoveOneKeeps(f: Flight, id: uint32, o: Outcome, ss: seq<Step>, lost: iset<nat>)
    requires Accounted(f, ss, lost)
    ensures Accounted(RemoveOne(f, id, o), ss, lost)
  {
    hide Added;
    if id in f.waiting {
      var r, w0 := RemoveOne(f, id, o), f.waiting[id];
      forall w ensures Waits(r, w) <==> Waits(f, w) && w != w0 {
        if Waits(f, w) && w != w0 {
          var i :| i in f.waiting && f.waiting[i] == w;
          assert i in r.waiting && r.waiting[i] == w;
        }
        if Waits(r, w) {
          var i :| i in r.waiting && r.waiting[i] == w;
          assert i in f.waiting && f.waiting[i] == w;
        }
      }
      assert Waits(f, w0);
      forall w ensures Results(r.told, w) == Results(f.told, w) + if w == w0 then 1 else 0 {
        assert r.told[..|r.told| - 1] == f.told;
      }
    }
  }

  lemma {:induction false} ClearKeeps(f: Flight, order: seq<uint32>, ss: seq<Step>, lost: iset<nat>)
    requires Accounted(f, ss, lost)
    ensures Accounted(ClearIn(f, order), ss, lost)
    decreases |order|
  {
    hide Accounted;
    if order != [] {
      RemoveOneKeeps(f, order[0], Ended, ss, lost);
      ClearKeeps(RemoveOne(f, order[0], Ended), order[1..], ss, lost);
    }
  }

  lemma {:induction false} AddKeeps(f: Flight, id: uint32, waiter: nat, ss: seq<Step>, lost: iset<nat>)
    requires Accounted(f, ss, lost) && !Added(ss, waiter)
    ensures Accounted(Add(f, id, waiter), ss + [AddStep(id, waiter)],
                      lost + iset w | Displaces(f, AddStep(id, waiter), w))
  {
    var r, ts := Add(f, id, waiter), ss + [AddStep(id, waiter)];
    forall w ensures Added(ts, w) <==> Added(ss, w) || w == waiter {
      if Added(ss, w) {
        var k :| 0 <= k < |ss| && ss[k].AddStep? && ss[k].waiter == w;
        assert ts[k] == ss[k];
      }
      assert ts[|ss|] == AddStep(id, waiter);
    }
    forall w ensures Waits(r, w) <==> (Waits(f, w) && !Displaces(f, AddStep(id, waiter), w)) || w == waiter {
      AddWaits(f, id, waiter, w);
    }
    forall w | Displaces(f, AddStep(id, waiter), w) ensures Waits(f, w) {}
    forall i, j | i in r.waiting && j in r.waiting && r.waiting[i] == r.waiting[j] ensures i == j {
      assert !Waits(f, waiter);
      assert forall k | k in f.waiting :: f.waiting[k] != waiter;
    }
  }

  lemma {:induction false} AddWaits(f: Flight, id: uint32, waiter: nat, w: nat)
    requires Distinct(f)
    ensures Waits(Add(f, id, waiter), w) <==> (Waits(f, w) && !Displaces(f, AddStep(id, waiter), w)) || w == waiter
  {
    var r := Add(f, id, waiter);
    if Waits(f, w) {
      var i :| i in f.waiting && f.waiting[i] == w;
      assert i != id ==> i in r.waiting && r.waiting[i] == w;
    }
    if Waits(r, w) {
      var i :| i in r.waiting && r.waiting[i] == w;
      assert i != id ==> i in f.waiting && f.waiting[i] == w;
    }
    assert id in r.waiting && r.waiting[id] == waiter;
  }

  lemma {:induction false} OtherStep(f: Flight, s: Step, ss: seq<Step>, lost: iset<nat>)
    requires Accounted(f, ss, lost) && !s.AddStep?
    ensures Accounted(f, ss + [s], lost)
  {
    forall w ensures Added(ss + [s], w) <==> Added(ss, w) {
      if Added(ss, w) {
        var k :| 0 <= k < |ss| && ss[k].AddStep? && ss[k].waiter == w;
        assert (ss + [s])[k] == ss[k];
      }
    }
  }

  lemma {:induction false} NothingAccounted(lost: iset<nat>)
    requires lost == iset{}
    ensures Accounted(Flight(map[], []), [], lost)
  {
  }

  /**
   In every run of add, remove and clear, a waiter no longer in the map has been told exactly one
   result, and none is told two; the only ones never told are those still waiting and those
   displaced by a second wait for the same id.
   */
  lemma {:induction false} EachToldOnce(fs: seq<Flight>, ss: seq<Step>)
    requires IsRun(fs, ss)
    ensures Accounted(fs[|ss|], ss, iset w | Displaced(fs, ss, w))
    decreases |ss|
  {
    hide Next, Accounted, Displaces;
    if ss == [] {
      NothingAccounted(iset w | Displaced(fs, ss, w));
    } else {
      var n := |ss| - 1;
      var f, s, ts := fs[n], ss[n], ss[..n];
      var gs := fs[..n + 1];
      EachToldOnce(gs, ts);
      assert gs[n] == f && ss == ts + [s];
      StepKeeps(f, s, ts, iset w | Displaced(gs, ts, w));
      forall w ensures Displaced(fs, ss, w) <==> Displaced(gs, ts, w) || Displaces(f, s, w) {
        if Displaced(gs, ts, w) {
          var k :| 0 <= k < |ts| && Displaces(gs[k], ts[k], w);
          assert Displaces(fs[k], ss[k], w);
        }
        if Displaced(fs, ss, w) {
          var k :| 0 <= k < |ss| && Displaces(fs[k], ss[k], w);
          assert k < n ==> Displaces(gs[k], ts[k], w);
        }
      }
      assert (iset w | Displaced(fs, ss, w)) == (iset w | Displaced(gs, ts, w)) + iset w | Displaces(f, s, w);
    }
  }

  lemma {:induction false} StepKeeps(f: Flight, s: Step, ss: seq<Step>, lost: iset<nat>)
    requires Accounted(f, ss, lost) && (s.AddStep? ==> !Added(ss, s.waiter))
    ensures Accounted(Next(f, s), ss + [s], lost + iset w | Displaces(f, s, w))
  {
    hide Accounted;
    match s {
      case AddStep(id, waiter) => AddKeeps(f, id, waiter, ss, lost);
      case RemoveStep(first, last, o) =>
        OtherStep(f, s, ss, lost);
        RemoveKeeps(f, first, last, o, ss + [s], lost);
        assert lost + (iset w | Displaces(f, s, w)) == lost;
      case ClearStep(order) =>
        OtherStep(f, s, ss, lost);
        ClearKeeps(f, order, ss + [s], lost);
        assert lost + (iset w | Displaces(f, s, w)) == lost;
    }
  }

  /** The same for each waiter that was added. */
  lemma {:induction false} ToldAtMostOnce(fs: seq<Flight>, ss: seq<Step>)
    requires IsRun(fs, ss)
    ensures forall k | 0 <= k < |ss| && ss[k].AddStep? ::
              Results(fs[|ss|].told, ss[k].waiter) ==
              if Waits(fs[|ss|], ss[k].waiter) || Displaced(fs, ss, ss[k].waiter) then 0 else 1
  {
    hide Results, Waits, Displaced, Next;
    EachToldOnce(fs, ss);
    var f, lost := fs[|ss|], iset w | Displaced(fs, ss, w);
    forall k | 0 <= k < |ss| && ss[k].AddStep?
      ensures Results(f.told, ss[k].waiter)
           == if Waits(f, ss[k].waiter) || Displaced(fs, ss, ss[k].waiter) then 0 else 1
    {
      assert Added(ss, ss[k].waiter);
      assert (ss[k].waiter in lost) == Displaced(fs, ss, ss[k].waiter);
    }
  }

  /** Whoever waits for an id of the range is told. */
  lemma {:induction false} HitTold(f: Flight, first: int, last: uint32, o: Outcome, id: uint32)
    requires 0 <= first <= id <= last && id in f.waiting
    ensures Told(f.waiting[id], o) in RemoveFrom(f, first, last, o).told
    decreases MOD32 - first
  {
    hide FromRange;
    var g := RemoveOne(f, first, o);
    if first == id {
      RemoveExact(g, first + 1, last, o);
      assert g.told[|f.told|] == Told(f.waiting[id], o) == RemoveFrom(g, first + 1, last, o).told[|f.told|];
    } else {
      HitTold(g, first + 1, last, o, id);
    }
  }
}
