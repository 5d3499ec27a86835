/** Dispositions do what they are for: the deliveries they name are completed, and their links are told. */
module Settlement {
  import opened Words
  import opened Values
  import opened Frames
  import opened Session
  import opened SessionRuns
  import Delivery

  // ---- completion --------------------------------------------------------------------

  function Upto(d: Disposition): (n: uint32) {
    match d.last case None => d.first case Some(n) => n
  }

  /** The deliveries of a map that a disposition names. */
  function Named<T>(m: map<uint32, T>, first: int, last: uint32): (s: set<uint32>) {
    set id | id in m && first <= id <= last
  }

  predicate Awaits(g: Ledger, ids: set<uint32>, c: nat) {
    exists id :: id in ids && id in g.settlements && g.settlements[id] == c
  }

  predicate Recorded(g: Ledger, id: uint32, x: Completion, cause: Cause) {
    id in g.settlements && x == Completion(g.settlements[id], id, cause)
  }

  /**
   Exactly the deliveries in ids, all awaited, are completed: each leaves the map, its channel is
   closed and holds the state, it is recorded once, and everything else is as it was.
   */
  ghost predicate ClosedExactly(g: Ledger, r: Ledger, ids: set<uint32>, cause: Cause)
    requires !cause.BySender?
  {
    && ids <= g.settlements.Keys && r.settlements == g.settlements - ids && r.panicked == g.panicked
    && ChannelsClosed(g, r, ids, cause.disposition.state) && AllRecorded(g, r, ids, cause)
  }

  ghost predicate ChannelsClosed(g: Ledger, r: Ledger, ids: set<uint32>, state: Value) {
    && r.channels.Keys == g.channels.Keys
    && forall c | c in g.channels :: r.channels[c] == if Awaits(g, ids, c) then Channel(Some(state), true) else g.channels[c]
  }

  ghost predicate AllRecorded(g: Ledger, r: Ledger, ids: set<uint32>, cause: Cause) {
    && g.completions <= r.completions && |r.completions| == |g.completions| + |ids|
    && forall id | id in ids :: RecordedIn(g, r, id, cause)
  }

  ghost predicate RecordedIn(g: Ledger, r: Ledger, id: uint32, cause: Cause) {
    exists k :: |g.completions| <= k < |r.completions| && Recorded(g, id, r.completions[k], cause)
  }

  lemma {:induction false} OneClosed(g: Ledger, id: uint32, cause: Cause)
    requires Sound(g) && !cause.BySender? && id in g.settlements
    ensures ClosedExactly(g, Complete(g, id, cause), {id}, cause)
  {
    assert Waiting(g, id);
    var r := Complete(g, id, cause);
    forall c | c in g.channels
      ensures r.channels[c] == if Awaits(g, {id}, c) then Channel(Some(cause.disposition.state), true) else g.channels[c]
    {
      if c == g.settlements[id] { assert Awaits(g, {id}, c); }
    }
    assert Recorded(g, id, r.completions[|g.completions|], cause);
  }

  lemma {:induction false} NoneClosed(g: Ledger, cause: Cause)
    requires !cause.BySender?
    ensures ClosedExactly(g, g, {}, cause)
  {
  }

  lemma {:induction false} ThenClosed(g: Ledger, h: Ledger, r: Ledger, a: set<uint32>, b: set<uint32>, cause: Cause)
    requires !cause.BySender? && ClosedExactly(g, h, a, cause) && ClosedExactly(h, r, b, cause)
    ensures ClosedExactly(g, r, a + b, cause)
  {
    hide ChannelsClosed, AllRecorded;
    assert a !! b;
    ThenChannels(g, h, r, a, b, cause.disposition.state);
    ThenRecorded(g, h, r, a, b, cause);
  }

  lemma {:induction false} ThenChannels(g: Ledger, h: Ledger, r: Ledger, a: set<uint32>, b: set<uint32>, state: Value)
    requires a <= g.settlements.Keys && h.settlements == g.settlements - a && b <= h.settlements.Keys
    requires ChannelsClosed(g, h, a, state) && ChannelsClosed(h, r, b, state)
    ensures ChannelsClosed(g, r, a + b, state)
  {
    hide Awaits;
    forall c | c in g.channels ensures Awaits(g, a + b, c) <==> Awaits(g, a, c) || Awaits(h, b, c) {
      AwaitsEither(g, h, a, b, c);
    }
  }

  lemma {:induction false} ThenRecorded(g: Ledger, h: Ledger, r: Ledger, a: set<uint32>, b: set<uint32>, cause: Cause)
    requires a !! b && h.settlements == g.settlements - a
    requires AllRecorded(g, h, a, cause) && AllRecorded(h, r, b, cause)
    ensures AllRecorded(g, r, a + b, cause)
  {
    assert |a + b| == |a| + |b|;
    forall id | id in a + b ensures RecordedIn(g, r, id, cause) {
      if id in a {
        assert RecordedIn(g, h, id, cause);
        var k :| |g.completions| <= k < |h.completions| && Recorded(g, id, h.completions[k], cause);
        assert r.completions[k] == h.completions[k];
      } else {
        assert RecordedIn(h, r, id, cause);
        var k :| |h.completions| <= k < |r.completions| && Recorded(h, id, r.completions[k], cause);
        assert Recorded(g, id, r.completions[k], cause);
      }
    }
  }

  lemma {:induction false} AwaitsEither(g: Ledger, h: Ledger, a: set<uint32>, b: set<uint32>, c: nat)
    requires a <= g.settlements.Keys && h.settlements == g.settlements - a && b <= h.settlements.Keys
    ensures Awaits(g, a + b, c) <==> Awaits(g, a, c) || Awaits(h, b, c)
  {
    if Awaits(g, a + b, c) {
      var id :| id in a + b && id in g.settlements && g.settlements[id] == c;
      if id in b { assert h.settlements[id] == c; }
    }
    if Awaits(g, a, c) {
      var id :| id in a && id in g.settlements && g.settlements[id] == c;
      assert id in a + b;
    }
    if Awaits(h, b, c) {
      var id :| id in b && id in h.settlements && h.settlements[id] == c;
      assert id in a + b && g.settlements[id] == c;
    }
  }

  // ---- a confirmation sent -----------------------------------------------------------

  lemma {:induction false} ConfirmedFrom(g: Ledger, d: Disposition, id: int)
    requires 0 <= id <= MOD32 && Sound(g) && d.first <= id && d.settled && !d.role
    ensures ClosedExactly(g, ConfirmFrom(g, d, id), Named(g.settlements, id, Upto(d)), ByConfirmation(d))
    decreases MOD32 - id
  {
    hide Sound, Complete, ClosedExactly;
    var cause := ByConfirmation(d);
    if id > Upto(d) {
      assert Named(g.settlements, id, Upto(d)) == {};
      NoneClosed(g, cause);
    } else {
      var h := Complete(g, id, cause);
      CompleteKeeps(g, id, cause);
      ConfirmedFrom(h, d, id + 1);
      var rest := Named(h.settlements, id + 1, Upto(d));
      if id in g.settlements {
        OneClosed(g, id, cause);
        ThenClosed(g, h, ConfirmFrom(h, d, id + 1), {id}, rest, cause);
        ClosedLeaves(g, h, {id}, cause);
        assert h.settlements == g.settlements - {id};
        assert Named(g.settlements, id, Upto(d)) == {id} + rest;
      } else {
        CompleteAbsent(g, id, cause);
        assert Named(g.settlements, id, Upto(d)) == rest;
      }
    }
  }

  lemma {:induction false} ClosedLeaves(g: Ledger, r: Ledger, ids: set<uint32>, cause: Cause)
    requires !cause.BySender? && ClosedExactly(g, r, ids, cause)
    ensures r.settlements == g.settlements - ids
  {
  }

  lemma {:induction false} CompleteAbsent(g: Ledger, id: uint32, cause: Cause)
    requires !cause.BySender? && id !in g.settlements
    ensures Complete(g, id, cause) == g
  {
  }

  /**
   A settled disposition of the sender's role going out completes exactly the awaited deliveries it
   names, with its state; any other completes nothing.
   */
  lemma {:induction false} ConfirmationCompletes(st: Mux, d: Disposition)
    requires Sound(st.ledger) && Enabled(st, TxDisposition(d))
    ensures var r := Step(st, TxDisposition(d));
            && r.life == Send(st.life, SentDisposition(d))
            && r.tables == st.tables && r.windows == st.windows && r.forwarded == st.forwarded
            && (if d.settled && !d.role
                then ClosedExactly(st.ledger, r.ledger, Named(st.ledger.settlements, d.first, Upto(d)), ByConfirmation(d))
                else r.ledger == st.ledger)
  {
    hide Sound, ClosedExactly, ConfirmFrom;
    if d.settled && !d.role { ConfirmedFrom(st.ledger, d, d.first); }
  }

  // ---- a disposition received --------------------------------------------------------

  /** A receiver's disposition is about deliveries sent, a sender's about deliveries received. */
  function HandlesFor(t: Tables, d: Disposition): (m: map<uint32, uint32>) {
    if d.role then t.localHandles else t.remoteHandles
  }

  predicate IsFor(t: Tables, d: Disposition, id: uint32, f: Forward) {
    && id in HandlesFor(t, d) && HandlesFor(t, d)[id] in t.links
    && f == Forward(t.links[HandlesFor(t, d)[id]], RxDisposition(d))
  }

  /** The deliveries named whose link is attached. */
  function Reachable(t: Tables, d: Disposition, first: int): (s: set<uint32>) {
    set id | id in HandlesFor(t, d) && first <= id <= Upto(d) && HandlesFor(t, d)[id] in t.links
  }

  /** For each delivery named, its link gets the frame; nothing else is passed on. */
  ghost predicate ToldExactly(t: Tables, d: Disposition, ids: set<uint32>, before: seq<Forward>, after: seq<Forward>) {
    && before <= after && |after| == |before| + |ids|
    && forall id | id in ids :: exists k :: |before| <= k < |after| && IsFor(t, d, id, after[k])
  }

  lemma {:induction false} ThenTold(t: Tables, u: Tables, d: Disposition, id: uint32, rest: set<uint32>,
                                    before: seq<Forward>, mid: seq<Forward>, after: seq<Forward>)
    requires u.links == t.links && id !in rest && HandlesFor(u, d) == HandlesFor(t, d) - {id}
    requires id in HandlesFor(t, d) && HandlesFor(t, d)[id] in t.links
    requires mid == before + [Forward(t.links[HandlesFor(t, d)[id]], RxDisposition(d))]
    requires ToldExactly(u, d, rest, mid, after)
    ensures ToldExactly(t, d, {id} + rest, before, after)
  {
    assert |{id} + rest| == 1 + |rest|;
    forall i | i in {id} + rest ensures exists k :: |before| <= k < |after| && IsFor(t, d, i, after[k]) {
      if i == id {
        assert after[|before|] == mid[|before|];
      } else {
        var k :| |mid| <= k < |after| && IsFor(u, d, i, after[k]);
        assert IsFor(t, d, i, after[k]);
      }
    }
  }

  lemma {:induction false} SameTold(t: Tables, u: Tables, d: Disposition, ids: set<uint32>, before: seq<Forward>,
                                    after: seq<Forward>)
    requires u.links == t.links && ToldExactly(u, d, ids, before, after)
    requires forall i | i in HandlesFor(u, d) :: i in HandlesFor(t, d) && HandlesFor(t, d)[i] == HandlesFor(u, d)[i]
    ensures ToldExactly(t, d, ids, before, after)
  {
    forall i | i in ids ensures exists k :: |before| <= k < |after| && IsFor(t, d, i, after[k]) {
      var k :| |before| <= k < |after| && IsFor(u, d, i, after[k]);
      assert IsFor(t, d, i, after[k]);
    }
  }

  /** All a disposition does to the session. */
  ghost predicate Dispatched(st: Mux, r: Mux, d: Disposition, first: int) {
    var named := Named(HandlesFor(st.tables, d), first, Upto(d));
    && r.windows == st.windows
    && r.tables == (if d.role then st.tables.(localHandles := st.tables.localHandles - named)
                    else st.tables.(remoteHandles := st.tables.remoteHandles - named))
    && (if d.role && d.settled then ClosedExactly(st.ledger, r.ledger, named * st.ledger.settlements.Keys, ByReceiver(d))
        else r.ledger == st.ledger)
    && ToldExactly(st.tables, d, Reachable(st.tables, d, first), st.forwarded, r.forwarded)
    && r.life == (if named == Reachable(st.tables, d, first) then st.life else CloseWithError(st.life, UnknownDisposition))
  }

  lemma {:induction false} NoneDispatched(st: Mux, d: Disposition, first: int)
    requires first > Upto(d)
    ensures Dispatched(st, st, d, first)
  {
    assert Named(HandlesFor(st.tables, d), first, Upto(d)) == {} == Reachable(st.tables, d, first);
    assert st.tables.localHandles - {} == st.tables.localHandles && st.tables.remoteHandles - {} == st.tables.remoteHandles;
    if d.role && d.settled { NoneClosed(st.ledger, ByReceiver(d)); }
  }

  lemma {:induction false} SkipDispatched(st: Mux, r: Mux, d: Disposition, first: int)
    requires first !in HandlesFor(st.tables, d) && Dispatched(st, r, d, first + 1)
    ensures Dispatched(st, r, d, first)
  {
    hide ClosedExactly, ToldExactly, CloseWithError;
    assert Named(HandlesFor(st.tables, d), first, Upto(d)) == Named(HandlesFor(st.tables, d), first + 1, Upto(d));
    assert Reachable(st.tables, d, first) == Reachable(st.tables, d, first + 1);
  }

  /** The step for one delivery, as the maps see it. */
  lemma {:induction false} OneTables(st: Mux, d: Disposition, id: uint32)
    requires id in HandlesFor(st.tables, d)
    ensures var s := SettleAt(st, d, id);
            && s.windows == st.windows && s.tables.links == st.tables.links
            && s.tables == (if d.role then st.tables.(localHandles := st.tables.localHandles - {id})
                            else st.tables.(remoteHandles := st.tables.remoteHandles - {id}))
            && HandlesFor(s.tables, d) == HandlesFor(st.tables, d) - {id}
            && s.ledger == (if d.settled && d.role then Complete(st.ledger, id, ByReceiver(d)) else st.ledger)
  {
    hide Complete, CloseWithError;
  }

  lemma {:induction false} OneTold(st: Mux, d: Disposition, id: uint32)
    requires id in HandlesFor(st.tables, d)
    ensures var s, h := SettleAt(st, d, id), HandlesFor(st.tables, d)[id];
            if h in st.tables.links
            then && s.life == st.life && s.forwarded == st.forwarded + [Forward(st.tables.links[h], RxDisposition(d))]
            else && s.forwarded == st.forwarded && s.life == CloseWithError(st.life, UnknownDisposition)
  {
    hide Complete, CloseWithError;
  }

  lemma {:induction false} LedgerThen(st: Mux, s: Mux, r: Mux, d: Disposition, id: uint32)
    requires id in HandlesFor(st.tables, d) && HandlesFor(s.tables, d) == HandlesFor(st.tables, d) - {id}
    requires Sound(st.ledger) && d.role && d.settled && s.ledger == Complete(st.ledger, id, ByReceiver(d)) && id <= Upto(d)
    requires ClosedExactly(s.ledger, r.ledger, Named(HandlesFor(s.tables, d), id + 1, Upto(d)) * s.ledger.settlements.Keys,
                           ByReceiver(d))
    ensures ClosedExactly(st.ledger, r.ledger, Named(HandlesFor(st.tables, d), id, Upto(d)) * st.ledger.settlements.Keys,
                          ByReceiver(d))
  {
    hide Sound, Complete, ClosedExactly, HandlesFor, Upto, Named;
    var g, h, cause := st.ledger, s.ledger, ByReceiver(d);
    var m, n := HandlesFor(st.tables, d), HandlesFor(s.tables, d);
    var rest := Named(n, id + 1, Upto(d)) * h.settlements.Keys;
    if id in g.settlements {
      OneClosed(g, id, cause);
      ThenClosed(g, h, r.ledger, {id}, rest, cause);
      ClosedLeaves(g, h, {id}, cause);
    } else {
      CompleteAbsent(g, id, cause);
      var none: set<uint32> := {};
      assert none + rest == rest;
    }
    NamedStep(m, n, id, Upto(d), g.settlements, h.settlements);
  }

  lemma {:induction false} NamedStep(m: map<uint32, uint32>, n: map<uint32, uint32>, id: uint32, last: uint32,
                                     g: map<uint32, nat>, h: map<uint32, nat>)
    requires id in m && n == m - {id} && id <= last && h == if id in g then g - {id} else g
    ensures Named(m, id, last) * g.Keys == (if id in g then {id} else {}) + Named(n, id + 1, last) * h.Keys
  {
    var all, rest := Named(m, id, last) * g.Keys, Named(n, id + 1, last) * h.Keys;
    forall x | x in all ensures x in (if id in g then {id} else {}) + rest {}
    forall x | x in (if id in g then {id} else {}) + rest ensures x in all {}
  }

  lemma {:induction false} StayClosed(l: Life, f: Fault)
    ensures CloseWithError(CloseWithError(l, f), f) == CloseWithError(l, f)
  {
  }

  lemma {:induction false} ToldThen(st: Mux, s: Mux, r: Mux, d: Disposition, id: uint32)
    requires id in HandlesFor(st.tables, d) && id <= Upto(d) && s == SettleAt(st, d, id)
    requires ToldExactly(s.tables, d, Reachable(s.tables, d, id + 1), s.forwarded, r.forwarded)
    ensures ToldExactly(st.tables, d, Reachable(st.tables, d, id), st.forwarded, r.forwarded)
  {
    hide ToldExactly, SettleAt;
    OneTables(st, d, id);
    OneTold(st, d, id);
    var rest := Reachable(s.tables, d, id + 1);
    if HandlesFor(st.tables, d)[id] in st.tables.links {
      assert Reachable(st.tables, d, id) == {id} + rest;
      ThenTold(st.tables, s.tables, d, id, rest, st.forwarded, s.forwarded, r.forwarded);
    } else {
      assert Reachable(st.tables, d, id) == rest;
      SameTold(st.tables, s.tables, d, rest, st.forwarded, r.forwarded);
    }
  }

  lemma {:induction false} LifeThen(st: Mux, s: Mux, r: Mux, d: Disposition, id: uint32)
    requires id in HandlesFor(st.tables, d) && id <= Upto(d) && s == SettleAt(st, d, id)
    requires r.life == if Named(HandlesFor(s.tables, d), id + 1, Upto(d)) == Reachable(s.tables, d, id + 1) then s.life
                       else CloseWithError(s.life, UnknownDisposition)
    ensures r.life == if Named(HandlesFor(st.tables, d), id, Upto(d)) == Reachable(st.tables, d, id) then st.life
                      else CloseWithError(st.life, UnknownDisposition)
  {
    hide SettleAt, CloseWithError;
    OneTables(st, d, id);
    OneTold(st, d, id);
    StayClosed(st.life, UnknownDisposition);
    var named, rest := Named(HandlesFor(st.tables, d), id, Upto(d)), Named(HandlesFor(s.tables, d), id + 1, Upto(d));
    assert named == {id} + rest;
    if HandlesFor(st.tables, d)[id] in st.tables.links {
      assert Reachable(st.tables, d, id) == {id} + Reachable(s.tables, d, id + 1);
      assert id !in rest && id !in Reachable(s.tables, d, id + 1);
      if {id} + rest == {id} + Reachable(s.tables, d, id + 1) {
        assert rest == ({id} + rest) - {id} == Reachable(s.tables, d, id + 1);
      }
    } else {
      assert id !in Reachable(st.tables, d, id);
    }
  }

  lemma {:induction false} OneDispatched(st: Mux, r: Mux, d: Disposition, id: uint32)
    requires Sound(st.ledger) && id in HandlesFor(st.tables, d) && id <= Upto(d)
    requires Dispatched(SettleAt(st, d, id), r, d, id + 1)
    ensures Dispatched(st, r, d, id)
  {
    hide SettleAt, Sound, ClosedExactly, ToldExactly, CloseWithError, Complete;
    var s := SettleAt(st, d, id);
    OneTables(st, d, id);
    ToldThen(st, s, r, d, id);
    LifeThen(st, s, r, d, id);
    if d.role && d.settled { LedgerThen(st, s, r, d, id); }
    var named, rest := Named(HandlesFor(st.tables, d), id, Upto(d)), Named(HandlesFor(s.tables, d), id + 1, Upto(d));
    assert named == {id} + rest;
    assert HandlesFor(st.tables, d) - named == (HandlesFor(st.tables, d) - {id}) - rest;
  }

  lemma {:induction false} AbsentKeeps(st: Mux, d: Disposition, id: uint32)
    requires id !in HandlesFor(st.tables, d)
    ensures SettleAt(st, d, id) == st
  {
  }

  lemma {:induction false} DispatchedFrom(st: Mux, d: Disposition, id: int)
    requires 0 <= id <= MOD32 && Sound(st.ledger) && d.first <= id
    ensures Dispatched(st, SettleFrom(st, d, id), d, id)
    decreases MOD32 - id
  {
    hide SettleAt, Sound, Dispatched;
    if id > Upto(d) {
      NoneDispatched(st, d, id);
    } else if id in HandlesFor(st.tables, d) {
      var s := SettleAt(st, d, id);
      OneTables(st, d, id);
      if d.settled && d.role { CompleteKeeps(st.ledger, id, ByReceiver(d)); }
      DispatchedFrom(s, d, id + 1);
      OneDispatched(st, SettleFrom(s, d, id + 1), d, id);
    } else {
      AbsentKeeps(st, d, id);
      DispatchedFrom(st, d, id + 1);
      SkipDispatched(st, SettleFrom(st, d, id + 1), d, id);
    }
  }

  /**
   A disposition received: every delivery it names leaves the map of its role, its link gets the frame,
   and if the disposition is a receiver's and settled, exactly the awaited ones among them complete with
   its state. The session closes with an error exactly when some delivery's link is not attached.
   */
  lemma {:induction false} DispositionCompletes(st: Mux, d: Disposition)
    requires Sound(st.ledger) && Enabled(st, RxDisposition(d))
    ensures Dispatched(st, Step(st, RxDisposition(d)), d, d.first)
  {
    hide Sound, Dispatched, SettleFrom;
    DispatchedFrom(st, d, d.first);
  }

  // ---- over whole runs ---------------------------------------------------------------

  /** The delivery was sent unsettled: a channel waits for its outcome. */
  predicate Waits(st: Mux, id: uint32, c: nat) {
    id in st.ledger.settlements && st.ledger.settlements[id] == c && id in st.tables.localHandles
  }

  /** The event is about the delivery: a disposition names it, or a transfer goes out under its id. */
  predicate IsAbout(st: Mux, e: Event, id: uint32) {
    match e
    case RxDisposition(d) => d.role && d.first <= id <= Upto(d)
    case TxDisposition(d) => d.settled && !d.role && d.first <= id <= Upto(d)
    case TxTransfer(env, _, _, _) => IdFor(st.tables, env) == id
    case _ => false
  }

  ghost predicate Untouched(st: Mux, es: seq<Event>, id: uint32)
    decreases |es|
  {
    es == [] || (!IsAbout(st, es[0], id) && Untouched(Step(st, es[0]), es[1..], id))
  }

  lemma {:induction false} ReceivedElsewhere(st: Mux, d: Disposition, id: uint32, c: nat)
    requires Sound(st.ledger) && Enabled(st, RxDisposition(d)) && Waits(st, id, c) && !IsAbout(st, RxDisposition(d), id)
    ensures Waits(Step(st, RxDisposition(d)), id, c)
  {
    hide Sound, ToldExactly, ChannelsClosed, AllRecorded, Step, CloseWithError;
    DispositionCompletes(st, d);
  }

  lemma {:induction false} ConfirmedElsewhere(st: Mux, d: Disposition, id: uint32, c: nat)
    requires Sound(st.ledger) && Enabled(st, TxDisposition(d)) && Waits(st, id, c) && !IsAbout(st, TxDisposition(d), id)
    ensures Waits(Step(st, TxDisposition(d)), id, c)
  {
    hide Sound, ChannelsClosed, AllRecorded, Step;
    ConfirmationCompletes(st, d);
  }

  lemma {:induction false} OthersKeep(st: Mux, e: Event, id: uint32, c: nat)
    requires Waits(st, id, c) && !IsAbout(st, e, id) && !e.RxDisposition? && !e.TxDisposition?
    ensures Waits(Step(st, e), id, c)
  {
    hide CloseWithError, EndNow, EndReceived, Send, Stamped, FlowReceived, TransferReceived, TransferWritten;
  }

  lemma {:induction false} StillWaitsStep(st: Mux, e: Event, id: uint32, c: nat)
    requires Sound(st.ledger) && Enabled(st, e) && Waits(st, id, c) && !IsAbout(st, e, id)
    ensures Waits(Step(st, e), id, c)
  {
    hide Sound, Step, Waits, IsAbout, Enabled;
    match e {
      case RxDisposition(d) => ReceivedElsewhere(st, d, id, c);
      case TxDisposition(d) => ConfirmedElsewhere(st, d, id, c);
      case _ => OthersKeep(st, e, id, c);
    }
  }

  /** Nothing else ends the wait. */
  lemma {:induction false} StillWaits(st: Mux, es: seq<Event>, id: uint32, c: nat)
    requires Sound(st.ledger) && ValidRun(st, es) && Waits(st, id, c) && Untouched(st, es, id)
    ensures Waits(Run(st, es), id, c) && Sound(Run(st, es).ledger)
    decreases |es|
  {
    hide Sound, Step, Waits, IsAbout, Enabled;
    if es != [] {
      StillWaitsStep(st, es[0], id, c);
      SoundStep(st, es[0]);
      StillWaits(Step(st, es[0]), es[1..], id, c);
    }
  }

  lemma {:induction false} AwaitedChannel(g: Ledger, r: Ledger, ids: set<uint32>, cause: Cause, id: uint32)
    requires !cause.BySender? && Sound(g) && ClosedExactly(g, r, ids, cause) && id in ids
    ensures id in g.settlements && g.settlements[id] in r.channels && id !in r.settlements
    ensures r.channels[g.settlements[id]] == Channel(Some(cause.disposition.state), true)
  {
    assert Waiting(g, id);
    assert Awaits(g, ids, g.settlements[id]);
  }

  /** A settled disposition of the receiver's ends it, with its state. */
  lemma {:induction false} SettledThen(st: Mux, d: Disposition, id: uint32, c: nat)
    requires Sound(st.ledger) && Enabled(st, RxDisposition(d)) && Waits(st, id, c)
    requires d.role && d.settled && d.first <= id <= Upto(d)
    ensures var g := Step(st, RxDisposition(d)).ledger;
            id !in g.settlements && c in g.channels && g.channels[c] == Channel(Some(d.state), true)
  {
    hide Sound, ClosedExactly, ToldExactly, Step, CloseWithError;
    DispositionCompletes(st, d);
    var ids := Named(st.tables.localHandles, d.first, Upto(d)) * st.ledger.settlements.Keys;
    AwaitedChannel(st.ledger, Step(st, RxDisposition(d)).ledger, ids, ByReceiver(d), id);
  }

  /** A confirmation going out ends it too, whether or not the receiver's disposition came first. */
  lemma {:induction false} ConfirmedThen(st: Mux, d: Disposition, id: uint32)
    requires Sound(st.ledger) && Enabled(st, TxDisposition(d)) && id in st.ledger.settlements
    requires !d.role && d.settled && d.first <= id <= Upto(d)
    ensures var g, c := Step(st, TxDisposition(d)).ledger, st.ledger.settlements[id];
            id !in g.settlements && c in g.channels && g.channels[c] == Channel(Some(d.state), true)
  {
    hide Sound, ClosedExactly, Step;
    ConfirmationCompletes(st, d);
    AwaitedChannel(st.ledger, Step(st, TxDisposition(d)).ledger, Named(st.ledger.settlements, d.first, Upto(d)),
                   ByConfirmation(d), id);
  }

  lemma {:induction false} ClosedElsewhere(g: Ledger, r: Ledger, ids: set<uint32>, cause: Cause, c: nat)
    requires !cause.BySender? && Sound(g) && ClosedExactly(g, r, ids, cause) && c in g.channels && g.channels[c].closed
    ensures c in r.channels && r.channels[c] == g.channels[c]
  {
    forall id | id in ids ensures g.settlements[id] != c {
      assert Waiting(g, id);
    }
  }

  lemma {:induction false} ClosedStaysStep(st: Mux, e: Event, c: nat)
    requires Sound(st.ledger) && Enabled(st, e) && c in st.ledger.channels && st.ledger.channels[c].closed
    ensures c in Step(st, e).ledger.channels && Step(st, e).ledger.channels[c] == st.ledger.channels[c]
  {
    hide Sound, ClosedExactly, ToldExactly;
    match e {
      case RxDisposition(d) =>
        hide Step, CloseWithError;
        DispositionCompletes(st, d);
        if d.role && d.settled {
          ClosedElsewhere(st.ledger, Step(st, e).ledger,
                          Named(st.tables.localHandles, d.first, Upto(d)) * st.ledger.settlements.Keys, ByReceiver(d), c);
        }
      case TxDisposition(d) =>
        hide Step;
        ConfirmationCompletes(st, d);
        if d.settled && !d.role {
          ClosedElsewhere(st.ledger, Step(st, e).ledger, Named(st.ledger.settlements, d.first, Upto(d)), ByConfirmation(d), c);
        }
      case _ => hide SettleFrom, CloseWithError, EndNow, EndReceived, Number, Send, Stamped;
    }
  }

  /** What a channel was told is never changed. */
  lemma {:induction false} ClosedStays(st: Mux, es: seq<Event>, c: nat)
    requires Sound(st.ledger) && ValidRun(st, es) && c in st.ledger.channels && st.ledger.channels[c].closed
    ensures c in Run(st, es).ledger.channels && Run(st, es).ledger.channels[c] == st.ledger.channels[c]
    decreases |es|
  {
    hide Sound, Step, Enabled;
    if es != [] {
      ClosedStaysStep(st, es[0], c);
      SoundStep(st, es[0]);
      ClosedStays(Step(st, es[0]), es[1..], c);
    }
  }

  lemma {:induction false} RunSplit(st: Mux, a: seq<Event>, b: seq<Event>)
    ensures Run(st, a + b) == Run(Run(st, a), b)
    ensures ValidRun(st, a + b) <==> ValidRun(st, a) && ValidRun(Run(st, a), b)
    decreases |a|
  {
    hide Step, Enabled;
    if a == [] {
      assert a + b == b;
    } else {
      assert (a + b)[1..] == a[1..] + b;
      RunSplit(Step(st, a[0]), a[1..], b);
    }
  }

  /**
   A delivery that waits is completed by the first disposition of the peer that names it, if it is
   settled, with that state, whatever happens before and after.
   */
  lemma {:induction false} DeliveryCompletes(st: Mux, es: seq<Event>, d: Disposition, fs: seq<Event>, id: uint32, c: nat)
    requires Sound(st.ledger) && Waits(st, id, c) && ValidRun(st, es + ([RxDisposition(d)] + fs)) && Untouched(st, es, id)
    requires d.role && d.settled && d.first <= id <= Upto(d)
    ensures var g := Run(st, es + ([RxDisposition(d)] + fs)).ledger;
            c in g.channels && g.channels[c] == Channel(Some(d.state), true)
  {
    hide Sound, Step, Waits, Untouched, Enabled, Run, ValidRun;
    RunSplit(st, es, [RxDisposition(d)] + fs);
    var r := Run(st, es);
    StillWaits(st, es, id, c);
    RunFirst(r, RxDisposition(d), fs);
    SettledThen(r, d, id, c);
    SoundStep(r, RxDisposition(d));
    ClosedStays(Step(r, RxDisposition(d)), fs, c);
  }

  // ---- from send on ------------------------------------------------------------------

  /** Sending a message keeps the handle of its link under its id until it is settled, and touches no other. */
  lemma {:induction false} SendsRemember(st: Mux, m: Delivery.Outgoing, rest: bytes, n: nat, first: bool,
                                         inputHandle: uint32, done: nat, id: uint32)
    requires n > 0 && rest != []
    requires Ready(st, |Delivery.Split(m, rest, n, first)|, done)
    requires if first then id == st.tables.nextDeliveryId
             else m.handle in st.tables.outputIds && id == st.tables.outputIds[m.handle]
    ensures var r := Run(st, Passes(Delivery.Split(m, rest, n, first), inputHandle, done));
            var was := st.tables.localHandles;
            r.tables.localHandles == if m.settled then was - {id} else if first then was[id := inputHandle] else was
    decreases |rest|
  {
    hide Step, Enabled, AwaitCompletion, Run, ValidRun, Passes, SentAll, Delivery.Split, Delivery.Stamp;
    var env := Delivery.Piece(m, rest, n, first);
    var left := if |rest| > n then rest[n..] else [];
    FirstPass(m, rest, n, first, inputHandle, done, 0);
    PassWrites(st, env, inputHandle, done, |Delivery.Split(m, left, n, false)|);
    NumberKeeps(st.tables, env, inputHandle);
    var e := TxTransfer(env, inputHandle, done, Outcome.Written);
    var r := Step(st, e);
    RunFirst(st, e, Passes(Delivery.Split(m, left, n, false), inputHandle, done));
    if left != [] {
      SendsRemember(r, m, left, n, false, inputHandle, done, id);
    } else {
      RunNothing(r);
    }
  }

  lemma {:induction false} AwaitOpens(g: Ledger, id: uint32, done: nat)
    requires Sound(g) && done !in g.channels
    ensures var r := AwaitCompletion(g, id, done, false);
            Sound(r) && id in r.settlements && r.settlements[id] == done
  {
    AwaitKeeps(g, id, done, false);
  }

  /** A message sent unsettled, in however many transfers, waits on the channel its sender was given. */
  lemma {:induction false} SentWaits(st: Mux, m: Delivery.Outgoing, data: bytes, n: nat, inputHandle: uint32, done: nat)
    requires n > 0 && data != [] && !m.settled && Sound(st.ledger)
    requires Ready(st, |Delivery.Split(m, data, n, true)|, done)
    ensures var es := Passes(Delivery.Split(m, data, n, true), inputHandle, done);
            && ValidRun(st, es) && Sound(Run(st, es).ledger)
            && Waits(Run(st, es), st.tables.nextDeliveryId, done)
  {
    hide Sound, Run, ValidRun, Passes, AwaitCompletion, Delivery.Split, Delivery.Stamp, SentAll;
    var id := st.tables.nextDeliveryId;
    SendsStamped(st, m, data, n, true, inputHandle, done, id);
    SendsRemember(st, m, data, n, true, inputHandle, done, id);
    AwaitOpens(st.ledger, id, done);
  }

  /** A message sent settled is complete once its last transfer is written, with no state, and is then forgotten. */
  lemma {:induction false} SentSettled(st: Mux, m: Delivery.Outgoing, data: bytes, n: nat, inputHandle: uint32, done: nat)
    requires n > 0 && data != [] && m.settled && Sound(st.ledger)
    requires Ready(st, |Delivery.Split(m, data, n, true)|, done)
    ensures var es := Passes(Delivery.Split(m, data, n, true), inputHandle, done);
            var g := Run(st, es).ledger;
            && ValidRun(st, es) && g.settlements == st.ledger.settlements
            && done in g.channels && g.channels[done] == Channel(None, true)
            && Run(st, es).tables.localHandles == st.tables.localHandles - {st.tables.nextDeliveryId}
  {
    hide Sound, Run, ValidRun, Passes, Delivery.Split, Delivery.Stamp, SentAll;
    SendsStamped(st, m, data, n, true, inputHandle, done, st.tables.nextDeliveryId);
    SendsRemember(st, m, data, n, true, inputHandle, done, st.tables.nextDeliveryId);
  }

  /**
   From Send to its result: a message sent unsettled is completed by the first settled disposition of
   the peer that names it, and the channel Send waits on then holds that disposition's state for good.
   */
  lemma {:induction false} SendSettles(st: Mux, m: Delivery.Outgoing, data: bytes, n: nat, inputHandle: uint32, done: nat,
                                       es: seq<Event>, d: Disposition, fs: seq<Event>)
    requires n > 0 && data != [] && !m.settled && Sound(st.ledger)
    requires Ready(st, |Delivery.Split(m, data, n, true)|, done)
    requires d.role && d.settled && d.first <= st.tables.nextDeliveryId <= Upto(d)
    requires var sends := Passes(Delivery.Split(m, data, n, true), inputHandle, done);
             && ValidRun(Run(st, sends), es + ([RxDisposition(d)] + fs))
             && Untouched(Run(st, sends), es, st.tables.nextDeliveryId)
    ensures var sends := Passes(Delivery.Split(m, data, n, true), inputHandle, done);
            var g := Run(Run(st, sends), es + ([RxDisposition(d)] + fs)).ledger;
            done in g.channels && g.channels[done] == Channel(Some(d.state), true)
  {
    hide Sound, Run, ValidRun, Passes, Waits, Untouched, Delivery.Split;
    SentWaits(st, m, data, n, inputHandle, done);
    DeliveryCompletes(Run(st, Passes(Delivery.Split(m, data, n, true), inputHandle, done)), es, d, fs,
                      st.tables.nextDeliveryId, done);
  }
}
